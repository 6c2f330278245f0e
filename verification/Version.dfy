/** The version parser of the SDK preflight: digits at the front of each dotted token, up to
    three components. */
module Version {
  import opened Text
  import opened Decimal

  /** How Python classifies a character: not a digit, a decimal digit with its value, or a
      character `isdigit` accepts but `int` refuses (a superscript, for example). */
  datatype Digit = NotDigit | DecimalDigit(value: nat) | OtherDigit

  /** The classification agrees with ASCII. */
  ghost predicate Ascii(digit: char -> Digit) {
    && (forall c | IsDigit(c) :: digit(c) == DecimalDigit(DigitValue(c)))
    && digit('.') == NotDigit
  }

  datatype Parsed = NoVersion | Parsed(major: nat, minor: nat, patch: nat) | ValueError

  /** `s.split(c)`. */
  function Split(s: string, c: char): (ts: seq<string>)
    ensures ts != []
  {
    if s == "" then [""]
    else
      var ts := Split(s[1..], c);
      if s[0] == c then [""] + ts else [[s[0]] + ts[0]] + ts[1..]
  }

  /** The longest front part of the token made of digits. */
  function Front(token: string, digit: char -> Digit): (r: string)
    ensures r <= token
    ensures forall c <- r :: !digit(c).NotDigit?
    ensures |r| < |token| ==> digit(token[|r|]).NotDigit?
  {
    if token == "" || digit(token[0]).NotDigit? then ""
    else
      var r := Front(token[1..], digit);
      assert forall c <- [token[0]] + r :: !digit(c).NotDigit?;
      [token[0]] + r
  }

  /** `int(digits)`; None where it raises ValueError. */
  function ToInt(digits: string, digit: char -> Digit): Option<nat> {
    if digits == "" then Some(0)
    else match (ToInt(digits[..|digits| - 1], digit), digit(digits[|digits| - 1]))
      case (Some(n), DecimalDigit(v)) => Some(10 * n + v)
      case _ => None
  }

  /** The components read from the tokens, at most n of them; None where `int` raises. */
  function Components(tokens: seq<string>, n: nat, digit: char -> Digit): Option<seq<nat>> {
    if n == 0 || tokens == [] || Front(tokens[0], digit) == "" then Some([])
    else match (ToInt(Front(tokens[0], digit), digit), Components(tokens[1..], n - 1, digit))
      case (Some(v), Some(vs)) => Some([v] + vs)
      case _ => None
  }

  function Pad(parts: seq<nat>): Parsed {
    if parts == [] then NoVersion
    else Parsed(parts[0], if |parts| > 1 then parts[1] else 0, if |parts| > 2 then parts[2] else 0)
  }

  /** `_parse_version` as one expression. */
  function Parse(raw: string, digit: char -> Digit): Parsed {
    match Components(Split(raw, '.'), 3, digit)
    case None => ValueError
    case Some(parts) => Pad(parts)
  }

  // ---------------------------------------------------------------- the loops

  lemma ComponentsStep(tokens: seq<string>, i: nat, n: nat, digit: char -> Digit)
    requires i < |tokens| && n > 0 && Front(tokens[i], digit) != ""
    ensures Components(tokens[i..], n, digit) ==
            match (ToInt(Front(tokens[i], digit), digit), Components(tokens[i + 1..], n - 1, digit))
            case (Some(v), Some(vs)) => Some([v] + vs)
            case _ => None
  {
    assert tokens[i..][1..] == tokens[i + 1..] && tokens[i..][0] == tokens[i];
  }

  /** Where the loop stops, nothing more is read. */
  lemma NothingMore(tokens: seq<string>, i: nat, n: nat, digit: char -> Digit)
    requires i <= |tokens| && (n == 0 || i == |tokens| || Front(tokens[i], digit) == "")
    ensures Components(tokens[i..], n, digit) == Some([])
  {
    hide Front, ToInt;
    if i < |tokens| { assert tokens[i..][0] == tokens[i]; }
  }

  /** What is still to come, put behind what was read. */
  ghost predicate Continues(parts: seq<nat>, tokens: seq<string>, i: nat, raw: string, digit: char -> Digit)
    requires i <= |tokens| && |parts| <= 3
  {
    match Components(tokens[i..], 3 - |parts|, digit)
    case None => Parse(raw, digit) == ValueError
    case Some(vs) => Parse(raw, digit) == Pad(parts + vs)
  }

  /** Reading one more token moves a component from what is to come to what was read. */
  lemma ReadOne(parts: seq<nat>, tokens: seq<string>, i: nat, raw: string, digit: char -> Digit)
    requires i < |tokens| && |parts| < 3 && Continues(parts, tokens, i, raw, digit) && Front(tokens[i], digit) != ""
    ensures match ToInt(Front(tokens[i], digit), digit)
            case None => Parse(raw, digit) == ValueError
            case Some(v) => Continues(parts + [v], tokens, i + 1, raw, digit)
  {
    hide Parse, ToInt, Front, Components, Pad;
    ComponentsStep(tokens, i, 3 - |parts|, digit);
    var value, rest := ToInt(Front(tokens[i], digit), digit), Components(tokens[i + 1..], 2 - |parts|, digit);
    if value.Some? && rest.Some? {
      assert parts + ([value.value] + rest.value) == parts + [value.value] + rest.value;
    }
  }

  lemma AllToCome(raw: string, digit: char -> Digit)
    ensures Continues([], Split(raw, '.'), 0, raw, digit)
  {
    hide Components, Split;
    var tokens := Split(raw, '.');
    assert tokens[0..] == tokens;
    if Components(tokens, 3, digit).Some? {
      assert [] + Components(tokens, 3, digit).value == Components(tokens, 3, digit).value;
    }
  }

  /** The loop over a token's characters. */
  method LeadingDigits(token: string, digit: char -> Digit) returns (digits: string)
    ensures digits == Front(token, digit)
  {
    digits := "";
    var j := 0;
    while j < |token|
      invariant 0 <= j <= |token|
      invariant digits == token[..j]
      invariant forall c <- digits :: !digit(c).NotDigit?
    {
      if digit(token[j]).NotDigit? { break; }
      digits := digits + [token[j]];
      j := j + 1;
    }
    FrontIs(token, j, digit);
  }

  /** `_parse_version`. */
  method ParseVersion(raw: string, digit: char -> Digit) returns (r: Parsed)
    ensures r == Parse(raw, digit)
  {
    var tokens := Split(raw, '.');
    var parts: seq<nat> := [];
    var i := 0;
    AllToCome(raw, digit);
    while i < |tokens|
      invariant 0 <= i <= |tokens| && |parts| < 3
      invariant Continues(parts, tokens, i, raw, digit)
    {
      hide Parse, ToInt, Front, Split, Components, Continues;
      var digits := LeadingDigits(tokens[i], digit);
      if digits == "" { break; }
      ReadOne(parts, tokens, i, raw, digit);
      var value := ToInt(digits, digit);
      if value.None? { return ValueError; }
      parts := parts + [value.value];
      i := i + 1;
      if |parts| == 3 { break; }
    }
    hide Parse, ToInt, Front, Split, Components;
    NothingMore(tokens, i, 3 - |parts|, digit);
    assert parts + [] == parts;
    if parts == [] { return NoVersion; }
    while |parts| < 3
      invariant 1 <= |parts| <= 3
      invariant Pad(parts) == Parse(raw, digit)
    {
      parts := parts + [0];
    }
    return Parsed(parts[0], parts[1], parts[2]);
  }

  lemma {:induction false} FrontIs(token: string, j: nat, digit: char -> Digit)
    requires j <= |token| && forall c <- token[..j] :: !digit(c).NotDigit?
    requires j == |token| || digit(token[j]).NotDigit?
    ensures Front(token, digit) == token[..j]
  {
    if j > 0 {
      assert token[1..][..j - 1] == token[..j][1..];
      assert token[0] in token[..j] && forall c <- token[..j][1..] :: c in token[..j];
      FrontIs(token[1..], j - 1, digit);
      assert token[..j] == [token[0]] + token[1..][..j - 1];
    }
  }

  // ---------------------------------------------------------------- round trip

  lemma {:induction false} SplitAtFirst(a: string, c: char, rest: string)
    requires c !in a
    ensures Split(a + ([c] + rest), c) == [a] + Split(rest, c)
  {
    if a == "" {
      assert a + ([c] + rest) == [c] + rest && ([c] + rest)[1..] == rest;
    } else {
      assert (a + ([c] + rest))[1..] == a[1..] + ([c] + rest);
      SplitAtFirst(a[1..], c, rest);
      assert [a[0]] + a[1..] == a;
    }
  }

  lemma {:induction false} SplitFirst(s: string, c: char)
    ensures Split(s, c)[0] == Head(s, c)
  {
    if s != "" { SplitFirst(s[1..], c); }
  }

  lemma {:induction false} ToIntReads(digits: string, digit: char -> Digit)
    requires Ascii(digit) && AllDigits(digits)
    ensures ToInt(digits, digit) == Some(Read(digits))
  {
    if digits != "" {
      assert AllDigits(digits[..|digits| - 1]) by { assert forall c <- digits[..|digits| - 1] :: c in digits; }
      ToIntReads(digits[..|digits| - 1], digit);
    }
  }

  /** A printed number, then nothing or something that is no digit, reads as that number. */
  lemma FrontOfPrint(n: nat, rest: string, digit: char -> Digit)
    requires Ascii(digit) && (rest == "" || digit(rest[0]).NotDigit?)
    ensures Front(Print(n) + rest, digit) == Print(n)
    ensures ToInt(Print(n), digit) == Some(n)
  {
    hide Print;
    assert (Print(n) + rest)[..|Print(n)|] == Print(n);
    FrontIs(Print(n) + rest, |Print(n)|, digit);
    ToIntReads(Print(n), digit);
    ReadPrint(n);
  }

  lemma NoDotInPrint(n: nat)
    ensures '.' !in Print(n)
  {
  }

  /** Printing a version and parsing it gives it back, whatever follows, as long as the text
      that follows does not go on with a digit. */
  lemma VersionRoundTrip(a: nat, b: nat, c: nat, suffix: string, digit: char -> Digit)
    requires Ascii(digit) && (suffix == "" || digit(suffix[0]).NotDigit?)
    ensures Parse(Print(a) + ("." + (Print(b) + ("." + (Print(c) + suffix)))), digit) == Parsed(a, b, c)
  {
    hide Print, Front, ToInt, Split, Head;
    var s2 := Print(c) + suffix;
    var s1 := Print(b) + ("." + s2);
    var ts := Split(s2, '.');
    NoDotInPrint(a);
    NoDotInPrint(b);
    NoDotInPrint(c);
    SplitAtFirst(Print(a), '.', s1);
    SplitAtFirst(Print(b), '.', s2);
    SplitFirst(s2, '.');
    HeadOfConcat(Print(c), suffix, '.');
    HeadIsPrefixWithoutSeparator(suffix, '.');
    var tail := Head(suffix, '.');
    assert tail != "" ==> tail[0] == suffix[0];
    assert ts[0] == Print(c) + tail;
    var tokens := [Print(a)] + ([Print(b)] + ts);
    assert Split(Print(a) + ("." + s1), '.') == tokens;
    assert Print(a) + "" == Print(a) && Print(b) + "" == Print(b);
    FrontOfPrint(a, "", digit);
    FrontOfPrint(b, "", digit);
    FrontOfPrint(c, tail, digit);
    assert tokens[1..] == [Print(b)] + ts && tokens[1..][1..] == ts;
    ThreeComponents(tokens, a, b, c, digit);
  }

  /** The text goes on with no digit, and behind its first dot, if it has one, there is none either. */
  ghost predicate NoMoreNumbers(tail: string, digit: char -> Digit) {
    && (tail == "" || digit(tail[0]).NotDigit?)
    && ('.' in tail ==> exists a, b :: DotBetween(tail, a, b) && (b == "" || digit(b[0]).NotDigit?))
  }

  predicate DotBetween(tail: string, a: string, b: string) { tail == a + ("." + b) && '.' !in a }

  /** The tokens of a number with such a text behind it: the number and something, then a token that
      starts with no digit, if any. */
  lemma LastNumberTokens(n: nat, tail: string, digit: char -> Digit)
    requires Ascii(digit) && NoMoreNumbers(tail, digit)
    ensures var ts := Split(Print(n) + tail, '.');
            && Front(ts[0], digit) == Print(n)
            && (|ts| > 1 ==> Front(ts[1], digit) == "")
  {
    hide Print, Split, Front, Head;
    NoDotInPrint(n);
    if '.' in tail {
      var a, b :| DotBetween(tail, a, b) && (b == "" || digit(b[0]).NotDigit?);
      assert Print(n) + tail == (Print(n) + a) + ("." + b);
      SplitAtFirst(Print(n) + a, '.', b);
      SplitFirst(b, '.');
      assert a != "" ==> tail[0] == a[0];
      FrontOfPrint(n, a, digit);
      HeadIsPrefixWithoutSeparator(b, '.');
      NoFront(Head(b, '.'), digit);
    } else {
      SplitWithout(Print(n) + tail, '.');
      FrontOfPrint(n, tail, digit);
    }
  }

  lemma NoFront(token: string, digit: char -> Digit)
    requires token == "" || digit(token[0]).NotDigit?
    ensures Front(token, digit) == ""
  {
  }

  lemma {:induction false} SplitWithout(s: string, c: char)
    requires c !in s
    ensures Split(s, c) == [s]
  {
    if s != "" {
      SplitWithout(s[1..], c);
      assert [s[0]] + s[1..] == s;
    }
  }

  /** A lone number is a major version, with zeros for the rest. */
  lemma OneNumber(n: nat, tail: string, digit: char -> Digit)
    requires Ascii(digit) && NoMoreNumbers(tail, digit)
    ensures Parse(Print(n) + tail, digit) == Parsed(n, 0, 0)
  {
    hide Print, Split, Front, ToInt, NoMoreNumbers;
    LastNumberTokens(n, tail, digit);
    FrontOfPrint(n, "", digit);
    var ts := Split(Print(n) + tail, '.');
    assert Components(ts[1..], 2, digit) == Some([]);
  }

  /** Two numbers are a major and a minor version, with zero for the patch. */
  lemma TwoNumbers(n: nat, m: nat, tail: string, digit: char -> Digit)
    requires Ascii(digit) && NoMoreNumbers(tail, digit)
    ensures Parse(Print(n) + ("." + (Print(m) + tail)), digit) == Parsed(n, m, 0)
  {
    hide Print, Split, Front, ToInt, NoMoreNumbers;
    LastNumberTokens(m, tail, digit);
    NoDotInPrint(n);
    SplitAtFirst(Print(n), '.', Print(m) + tail);
    FrontOfPrint(n, "", digit);
    FrontOfPrint(m, "", digit);
    assert Print(n) + "" == Print(n);
    var ts := Split(Print(m) + tail, '.');
    assert Components(ts[1..], 1, digit) == Some([]);
    assert [m] + [] == [m];
    assert Components(ts, 2, digit) == Some([m]);
    assert ([Print(n)] + ts)[1..] == ts;
  }

  lemma ThreeComponents(tokens: seq<string>, a: nat, b: nat, c: nat, digit: char -> Digit)
    requires |tokens| >= 3
    requires Front(tokens[0], digit) != "" && ToInt(Front(tokens[0], digit), digit) == Some(a)
    requires Front(tokens[1], digit) != "" && ToInt(Front(tokens[1], digit), digit) == Some(b)
    requires Front(tokens[2], digit) != "" && ToInt(Front(tokens[2], digit), digit) == Some(c)
    ensures Components(tokens, 3, digit) == Some([a, b, c])
  {
    hide Front, ToInt, Components;
    assert tokens[0..] == tokens;
    ComponentsStep(tokens, 0, 3, digit);
    ComponentsStep(tokens, 1, 2, digit);
    ComponentsStep(tokens, 2, 1, digit);
    NothingMore(tokens, 3, 0, digit);
    assert [a] + ([b] + ([c] + [])) == [a, b, c];
  }

  /** Only decimal digits occur among the digits of the text. */
  ghost predicate IntReadable(raw: string, digit: char -> Digit) {
    forall c <- raw :: !digit(c).OtherDigit?
  }

  lemma {:induction false} ReadableToInt(digits: string, digit: char -> Digit)
    requires forall c <- digits :: digit(c).DecimalDigit?
    ensures ToInt(digits, digit).Some?
  {
    if digits != "" {
      assert forall c <- digits[..|digits| - 1] :: c in digits;
      ReadableToInt(digits[..|digits| - 1], digit);
    }
  }

  lemma {:induction false} ReadableComponents(tokens: seq<string>, n: nat, digit: char -> Digit)
    requires forall t <- tokens :: IntReadable(t, digit)
    ensures Components(tokens, n, digit).Some? && |Components(tokens, n, digit).value| <= n
  {
    hide ToInt, Front;
    if n > 0 && tokens != [] && Front(tokens[0], digit) != "" {
      var front := Front(tokens[0], digit);
      assert tokens[0] in tokens;
      assert forall c <- front :: c in tokens[0];
      ReadableToInt(front, digit);
      ReadableComponents(tokens[1..], n - 1, digit);
    }
  }

  lemma {:induction false} SplitCharacters(s: string, c: char)
    ensures forall t <- Split(s, c), x <- t :: x in s
  {
    if s != "" { SplitCharacters(s[1..], c); }
  }

  /** Text whose digits are all decimal, ASCII text in particular, never raises, and there is
      a version exactly when the text starts with a digit. */
  lemma VersionIffLeadingDigit(raw: string, digit: char -> Digit)
    requires Ascii(digit) && IntReadable(raw, digit)
    ensures !Parse(raw, digit).ValueError?
    ensures Parse(raw, digit).Parsed? <==> raw != "" && !digit(raw[0]).NotDigit?
  {
    hide ToInt, Front, Split;
    var tokens := Split(raw, '.');
    SplitCharacters(raw, '.');
    forall t <- tokens ensures IntReadable(t, digit) { assert forall c <- t :: c in raw; }
    ReadableComponents(tokens, 3, digit);
    SplitFirst(raw, '.');
    HeadIsPrefixWithoutSeparator(raw, '.');
    FirstTokenFront(raw, digit);
  }

  lemma FirstTokenFront(raw: string, digit: char -> Digit)
    requires digit('.').NotDigit?
    ensures Front(Head(raw, '.'), digit) != "" <==> raw != "" && !digit(raw[0]).NotDigit?
  {
  }

  // ---------------------------------------------------------------- every text

  predicate StartsWithDigit(t: string, digit: char -> Digit) { t != "" && !digit(t[0]).NotDigit? }

  /** Among the digits at the front of the token is one that `int` refuses. */
  ghost predicate Refused(t: string, digit: char -> Digit) {
    exists i :: 0 <= i < |t| && digit(t[i]).OtherDigit? && forall j :: 0 <= j < i ==> !digit(t[j]).NotDigit?
  }

  /** The loop gets to this token, since each one before it starts with a digit, and the token
      has a refused digit. */
  ghost predicate RefusedAt(tokens: seq<string>, i: nat, digit: char -> Digit)
    requires i < |tokens|
  {
    Refused(tokens[i], digit) && forall j :: 0 <= j < i ==> StartsWithDigit(tokens[j], digit)
  }

  ghost predicate RefusedWithin(tokens: seq<string>, n: nat, digit: char -> Digit) {
    exists i :: 0 <= i < n && i < |tokens| && RefusedAt(tokens, i, digit)
  }

  lemma {:induction false} ToIntRefusesIff(digits: string, digit: char -> Digit)
    requires forall c <- digits :: !digit(c).NotDigit?
    ensures ToInt(digits, digit).None? <==> exists c <- digits :: digit(c).OtherDigit?
  {
    if digits != "" {
      var front, last := digits[..|digits| - 1], digits[|digits| - 1];
      assert forall c :: c in digits <==> c in front || c == last;
      ToIntRefusesIff(front, digit);
    }
  }

  lemma FrontRefusedIff(t: string, digit: char -> Digit)
    ensures Front(t, digit) != "" <==> StartsWithDigit(t, digit)
    ensures ToInt(Front(t, digit), digit).None? <==> Refused(t, digit)
  {
    hide ToInt;
    var f := Front(t, digit);
    ToIntRefusesIff(f, digit);
    if c :| c in f && digit(c).OtherDigit? {
      var i :| 0 <= i < |f| && f[i] == c;
      assert forall j :: 0 <= j < i ==> t[j] == f[j] && f[j] in f;
      assert t[i] == c;
    }
    if i :| 0 <= i < |t| && digit(t[i]).OtherDigit? && forall j :: 0 <= j < i ==> !digit(t[j]).NotDigit? {
      assert |f| > i;
      assert f[i] == t[i] && f[i] in f;
    }
  }

  lemma {:induction false} ComponentsRefusedIff(tokens: seq<string>, n: nat, digit: char -> Digit)
    ensures Components(tokens, n, digit).None? <==> RefusedWithin(tokens, n, digit)
    decreases n
  {
    hide ToInt, Front, Refused, StartsWithDigit;
    if n > 0 && tokens != [] {
      FrontRefusedIff(tokens[0], digit);
      NothingRefused("", digit);
      var rest := tokens[1..];
      ComponentsRefusedIff(rest, n - 1, digit);
      if StartsWithDigit(tokens[0], digit) {
        forall i | 0 <= i < |rest| ensures RefusedAt(rest, i, digit) <==> RefusedAt(tokens, i + 1, digit) {
          assert tokens[i + 1] == rest[i];
          forall j | 0 < j <= i ensures tokens[j] == rest[j - 1] {}
        }
      }
      if i :| 0 <= i < n && i < |tokens| && RefusedAt(tokens, i, digit) {
        if i > 0 { assert RefusedAt(rest, i - 1, digit); } else { RefusedStarts(tokens[0], digit); }
      }
      if i :| 0 <= i < n - 1 && i < |rest| && RefusedAt(rest, i, digit) {
        assert StartsWithDigit(tokens[0], digit) ==> RefusedAt(tokens, i + 1, digit);
      }
      assert RefusedAt(tokens, 0, digit) <==> Refused(tokens[0], digit);
    }
  }

  lemma NothingRefused(t: string, digit: char -> Digit)
    requires t == ""
    ensures ToInt(t, digit).Some?
  {
  }

  lemma RefusedStarts(t: string, digit: char -> Digit)
    requires Refused(t, digit)
    ensures StartsWithDigit(t, digit)
  {
  }

  /** What every text parses to: `int` raises exactly when one of the first three tokens that
      the loop reads has a refused digit at its front; otherwise there is a version exactly
      when the text starts with a digit. */
  lemma ParseOutcome(raw: string, digit: char -> Digit)
    requires digit('.').NotDigit?
    ensures Parse(raw, digit).ValueError? <==> RefusedWithin(Split(raw, '.'), 3, digit)
    ensures Parse(raw, digit).NoVersion? <==> !StartsWithDigit(raw, digit)
  {
    hide ToInt, Split, Front, RefusedWithin;
    var tokens := Split(raw, '.');
    ComponentsRefusedIff(tokens, 3, digit);
    SplitFirst(raw, '.');
    HeadIsPrefixWithoutSeparator(raw, '.');
    FirstTokenFront(raw, digit);
  }
}
