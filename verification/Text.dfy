// The event lines as text: decimal numbers, fields, and key=value tokens.
module Text {

  function DigitChar(d: nat): char
    requires d < 10
  {
    '0' + d as char
  }

  /** %d of a non-negative number. */
  function Digits(n: nat): (s: string)
    ensures s != []
  {
    if n < 10 then [DigitChar(n)] else Digits(n / 10) + [DigitChar(n % 10)]
  }

  /** %d. */
  function Decimal(n: int): string {
    if n < 0 then "-" + Digits(-n) else Digits(n)
  }

  predicate IsDigit(c: char) { '0' <= c <= '9' }

  predicate AllDigits(s: string) {
    forall i :: 0 <= i < |s| ==> IsDigit(s[i])
  }

  function Value(s: string): nat
    requires AllDigits(s)
  {
    if s == [] then 0
    else Value(s[..|s| - 1]) * 10 + (s[|s| - 1] as int - '0' as int)
  }

  /** strconv.Atoi, with 0 for its errors: an optional sign and digits, within 64 bits. */
  function AtoiOrZero(s: string): int {
    var negative := s != [] && s[0] == '-';
    var body := if s != [] && (s[0] == '-' || s[0] == '+') then s[1..] else s;
    if body == [] || !AllDigits(body) then 0
    else
      var v: int := Value(body);
      if negative then (if v <= 0x8000_0000_0000_0000 then -v else 0)
      else (if v < 0x8000_0000_0000_0000 then v else 0)
  }

  lemma {:induction false} DigitsRoundTrip(n: nat)
    ensures AllDigits(Digits(n)) && Value(Digits(n)) == n
  {
    if n >= 10 {
      DigitsRoundTrip(n / 10);
      var s := Digits(n);
      assert s[..|s| - 1] == Digits(n / 10);
    } else {
      assert Digits(n)[..0] == [];
    }
  }

  /** A 64-bit number printed with %d reads back as itself. */
  lemma AtoiRoundTrip(n: int)
    requires -0x8000_0000_0000_0000 <= n < 0x8000_0000_0000_0000
    ensures AtoiOrZero(Decimal(n)) == n
  {
    if n < 0 {
      DigitsRoundTrip(-n);
      assert Decimal(n)[1..] == Digits(-n);
    } else {
      DigitsRoundTrip(n);
      assert IsDigit(Digits(n)[0]);
    }
  }

  predicate AllZeros(s: string) { forall i :: 0 <= i < |s| ==> s[i] == '0' }

  lemma OneMoreDigit(n: nat, d: nat)
    requires d < 10
    ensures Digits(10 * n + d) == (if n == 0 then [] else Digits(n)) + [DigitChar(d)]
  {
  }

  /** Digits are leading zeros and a printed number. */
  lemma {:induction false} ValueIsDigits(s: string) returns (zeros: string, digits: string)
    requires AllDigits(s)
    ensures AllZeros(zeros) && s == zeros + digits
    ensures digits == if Value(s) == 0 then "" else Digits(Value(s))
  {
    hide Digits, DigitChar;
    if s == [] {
      zeros, digits := [], [];
    } else {
      var rest, last := s[..|s| - 1], s[|s| - 1];
      assert s == rest + [last];
      zeros, digits := ValueIsDigits(rest);
      var d := last as int - '0' as int;
      OneMoreDigit(Value(rest), d);
      if Value(rest) == 0 && d == 0 {
        zeros := zeros + [last];
      } else {
        CharOfDigit(last);
        digits := digits + [last];
      }
    }
  }

  lemma CharOfDigit(c: char)
    requires IsDigit(c)
    ensures DigitChar(c as int - '0' as int) == c
  {
  }

  /** Atoi reads nothing but numbers: what it reads as n (other than 0) is an optional sign,
      leading zeros and n printed. */
  lemma AtoiReadsNumbers(s: string) returns (sign: string, body: string, zeros: string, digits: string)
    requires AtoiOrZero(s) != 0
    ensures -0x8000_0000_0000_0000 <= AtoiOrZero(s) < 0x8000_0000_0000_0000
    ensures s == sign + body && body == zeros + digits
    ensures (sign == "-" <==> AtoiOrZero(s) < 0) && (sign == "-" || sign == "+" || sign == "")
    ensures AllZeros(zeros) && digits == Digits(if AtoiOrZero(s) < 0 then -AtoiOrZero(s) else AtoiOrZero(s))
  {
    sign, body := AtoiParts(s);
    hide AtoiOrZero, Value, Digits;
    zeros, digits := ValueIsDigits(body);
  }

  lemma AtoiParts(s: string) returns (sign: string, body: string)
    requires AtoiOrZero(s) != 0
    ensures s == sign + body && AllDigits(body)
    ensures AtoiOrZero(s) == (if sign == "-" then -1 else 1) * Value(body)
    ensures sign == "-" || sign == "+" || sign == ""
    ensures -0x8000_0000_0000_0000 <= AtoiOrZero(s) < 0x8000_0000_0000_0000
  {
    hide Value;
    if s[0] == '-' || s[0] == '+' {
      sign, body := [s[0]], s[1..];
    } else {
      sign, body := [], s;
    }
  }

  /** unicode.IsSpace. */
  predicate IsSpace(c: char) {
    || '\t' <= c <= '\r' || c == ' ' || c == '\U{0085}' || c == '\U{00A0}' || c == '\U{1680}'
    || '\U{2000}' <= c <= '\U{200a}' || c == '\U{2028}' || c == '\U{2029}' || c == '\U{202f}' || c == '\U{205f}'
    || c == '\U{3000}'
  }

  predicate NoSpace(s: string) {
    forall i :: 0 <= i < |s| ==> !IsSpace(s[i])
  }

  /** The length of the leading run without spaces. */
  function WordLength(s: string): (n: nat)
    ensures n <= |s|
  {
    if s == [] || IsSpace(s[0]) then 0 else 1 + WordLength(s[1..])
  }

  /** strings.Fields. */
  function Fields(s: string): seq<string>
    decreases |s|
  {
    if s == [] then []
    else if IsSpace(s[0]) then Fields(s[1..])
    else [s[..WordLength(s)]] + Fields(s[WordLength(s)..])
  }

  function Squeezed(s: string): string {
    if s == [] then [] else (if IsSpace(s[0]) then [] else [s[0]]) + Squeezed(s[1..])
  }

  function Together(words: seq<string>): string {
    if words == [] then "" else words[0] + Together(words[1..])
  }

  lemma {:induction false} FirstWord(s: string)
    ensures NoSpace(s[..WordLength(s)])
    ensures WordLength(s) < |s| ==> IsSpace(s[WordLength(s)])
    ensures Squeezed(s) == s[..WordLength(s)] + Squeezed(s[WordLength(s)..])
  {
    if s != [] && !IsSpace(s[0]) {
      var n := WordLength(s[1..]);
      FirstWord(s[1..]);
      assert s[..1 + n] == [s[0]] + s[1..][..n] && s[1 + n..] == s[1..][n..];
    }
  }

  /** Fields gives words: none is empty, none holds a space, and together they are all of the
      text but its spaces. */
  lemma {:induction false} FieldsAreWords(s: string)
    ensures forall k :: 0 <= k < |Fields(s)| ==> Fields(s)[k] != [] && NoSpace(Fields(s)[k])
    ensures Together(Fields(s)) == Squeezed(s)
    decreases |s|
  {
    if s != [] {
      if IsSpace(s[0]) {
        FieldsAreWords(s[1..]);
      } else {
        FirstWord(s);
        FieldsAreWords(s[WordLength(s)..]);
        assert Fields(s)[1..] == Fields(s[WordLength(s)..]);
      }
    }
  }

  /** Words end only at spaces: joining two texts by a space joins their fields. */
  lemma {:induction false} FieldsOfJoin(a: string, b: string)
    ensures Fields(a + " " + b) == Fields(a) + Fields(b)
    decreases |a|
  {
    var s := a + " " + b;
    if a == [] {
      assert s[1..] == b;
    } else if IsSpace(a[0]) {
      assert s[1..] == a[1..] + " " + b;
      FieldsOfJoin(a[1..], b);
    } else {
      WordOfJoin(a, b);
      var n := WordLength(a);
      FieldsOfJoin(a[n..], b);
      hide WordLength;
      assert Fields(s) == [s[..n]] + Fields(s[n..]);
    }
  }

  lemma WordOfJoin(a: string, b: string)
    ensures var s, n := a + " " + b, WordLength(a);
            WordLength(s) == n && s[..n] == a[..n] && s[n..] == a[n..] + " " + b
  {
    var s, n := a + " " + b, WordLength(a);
    FirstWord(a);
    assert s == a[..n] + (a[n..] + " " + b);
    WordThenSpace(a[..n], a[n..] + " " + b);
  }

  lemma {:induction false} WordThenSpace(w: string, rest: string)
    requires NoSpace(w) && (rest != [] ==> IsSpace(rest[0]))
    ensures WordLength(w + rest) == |w|
  {
    if w == [] {
      assert w + rest == rest;
    } else {
      assert (w + rest)[1..] == w[1..] + rest;
      WordThenSpace(w[1..], rest);
    }
  }

  /** A word, and then a blank and more text or the end. */
  lemma FieldsCons(w: string, rest: string)
    requires w != [] && NoSpace(w)
    ensures Fields(w + " " + rest) == [w] + Fields(rest)
    ensures Fields(w) == [w]
  {
    var s := w + " " + rest;
    assert s == w + (" " + rest) && s[0] == w[0];
    WordThenSpace(w, " " + rest);
    assert s[..|w|] == w && s[|w|..] == " " + rest && (" " + rest)[1..] == rest;
    WordThenSpace(w, "");
    assert w + "" == w && w[..|w|] == w && w[|w|..] == [];
  }

  predicate HasPrefix(s: string, prefix: string) { prefix <= s }

  function FindKey(tokens: seq<string>, prefix: string): string {
    if tokens == [] then ""
    else if HasPrefix(tokens[0], prefix) then tokens[0][|prefix|..]
    else FindKey(tokens[1..], prefix)
  }

  function ParseStringKV(event: string, key: string): string {
    FindKey(Fields(event), key + "=")
  }

  /** The first token with the prefix decides; without one the value is empty. */
  lemma {:induction false} FirstKeyWins(before: seq<string>, rest: seq<string>, prefix: string)
    requires forall k :: 0 <= k < |before| ==> !HasPrefix(before[k], prefix)
    requires rest != [] ==> HasPrefix(rest[0], prefix)
    ensures FindKey(before + rest, prefix) == if rest == [] then "" else rest[0][|prefix|..]
  {
    if before == [] {
      assert before + rest == rest;
    } else {
      assert (before + rest)[1..] == before[1..] + rest;
      FirstKeyWins(before[1..], rest, prefix);
    }
  }

  /** parseStringKV's loop: the value of the first token that starts with key=. */
  method ParseStringKVLoop(event: string, key: string) returns (value: string)
    ensures value == ParseStringKV(event, key)
  {
    var prefix := key + "=";
    var tokens := Fields(event);
    assert tokens[0..] == tokens;
    for i := 0 to |tokens|
      invariant FindKey(tokens[i..], prefix) == FindKey(tokens, prefix)
    {
      if HasPrefix(tokens[i], prefix) {
        return tokens[i][|prefix|..];
      }
      assert tokens[i..][1..] == tokens[i + 1..];
    }
    return "";
  }

  function ParseIntKV(event: string, key: string): int {
    AtoiOrZero(ParseStringKV(event, key))
  }

  predicate OccursAt(s: string, sub: string, i: int) {
    0 <= i <= |s| - |sub| && s[i..i + |sub|] == sub
  }

  /** strings.Contains. */
  predicate Contains(s: string, sub: string) {
    exists i :: 0 <= i <= |s| && OccursAt(s, sub, i)
  }

  /** The line runElectionRound prints on a victory. */
  function ElectedLine(node: string, term: int, votes: int): string {
    "leader_elected" + " " + ("node=" + node + " " + ("term=" + Decimal(term) + " " + ("votes=" + Decimal(votes))))
  }

  lemma DecimalIsOneWord(n: int)
    ensures NoSpace(Decimal(n))
  {
    DigitsRoundTrip(if n < 0 then -n else n);
  }

  lemma ElectedLineFields(node: string, term: int, votes: int)
    requires NoSpace(node)
    ensures Fields(ElectedLine(node, term, votes)) ==
              ["leader_elected", "node=" + node, "term=" + Decimal(term), "votes=" + Decimal(votes)]
  {
    DecimalIsOneWord(term);
    DecimalIsOneWord(votes);
    hide Decimal, Fields, IsSpace;
    assert NoSpace("leader_elected") && NoSpace("node=") && NoSpace("term=") && NoSpace("votes=") by { PlainWords(); }
    var d := "votes=" + Decimal(votes);
    var c := "term=" + Decimal(term) + " " + d;
    var b := "node=" + node + " " + c;
    FieldsCons("leader_elected", b);
    FieldsCons("node=" + node, c);
    FieldsCons("term=" + Decimal(term), d);
    FieldsCons(d, "");
  }

  lemma PlainWords()
    ensures NoSpace("leader_elected") && NoSpace("node=") && NoSpace("term=") && NoSpace("votes=")
  {
  }

  lemma FindSecond(a: string, b: string, rest: seq<string>, prefix: string)
    requires !HasPrefix(a, prefix) && HasPrefix(b, prefix)
    ensures FindKey([a, b] + rest, prefix) == b[|prefix|..]
  {
    var t := [a, b] + rest;
    assert t[1..] == [b] + rest && t[1..][0] == b;
  }

  /** A victory line reads back as the node and the term it was printed from. */
  lemma ElectedLineRoundTrip(node: string, term: int, votes: int)
    requires NoSpace(node) && -0x8000_0000_0000_0000 <= term < 0x8000_0000_0000_0000
    ensures var line := ElectedLine(node, term, votes);
            && Contains(line, "leader_elected")
            && ParseStringKV(line, "node") == node && ParseIntKV(line, "term") == term
  {
    var line := ElectedLine(node, term, votes);
    ElectedLineFields(node, term, votes);
    AtoiRoundTrip(term);
    var a, b, c, d := "leader_elected", "node=" + node, "term=" + Decimal(term), "votes=" + Decimal(votes);
    assert OccursAt(line, a, 0);
    hide Fields, Decimal, ElectedLine;
    assert "node" + "=" == "node=" && "term" + "=" == "term=";
    assert a[0] == 'l' && b[0] == 'n';
    FindSecond(a, b, [c, d], "node=");
    FindSecond(b, c, [d], "term=");
    assert [a, b] + [c, d] == [a, b, c, d] && [a, b, c, d][1..] == [b, c] + [d];
    assert b[5..] == node && c[5..] == Decimal(term);
  }
}
