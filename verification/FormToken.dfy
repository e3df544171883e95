/**
 * The signed token that a public form sends back: when its page was served, and a signature of that.
 * The signing function is a parameter. Times are in milliseconds.
 */
module FormToken {
  import opened Options
  import Text

  const MIN_AGE := 3_000
  const MAX_AGE := 86_400_000

  // ----- numbers as digits

  predicate IsDigit(c: char) {
    '0' <= c <= '9'
  }

  predicate AllDigits(s: string) {
    s != "" && forall i :: 0 <= i < |s| ==> IsDigit(s[i])
  }

  function Digit(d: nat): char
    requires d < 10
  {
    '0' + d as char
  }

  function Print(n: nat): (s: string)
    ensures AllDigits(s)
  {
    if n < 10 then [Digit(n)] else Print(n / 10) + [Digit(n % 10)]
  }

  function Parse(s: string): nat
    requires forall i :: 0 <= i < |s| ==> IsDigit(s[i])
  {
    if s == "" then 0 else
    assert IsDigit(s[|s| - 1]);
    10 * Parse(s[..|s| - 1]) + (s[|s| - 1] as int - '0' as int)
  }

  /** Reading a printed number gives it back. */
  lemma {:induction false} ParseOfPrint(n: nat)
    ensures Parse(Print(n)) == n
  {
    if n < 10 {
      assert Print(n)[..0] == "";
    } else {
      ParseOfPrint(n / 10);
      assert Print(n)[..|Print(n)| - 1] == Print(n / 10);
    }
  }

  lemma {:induction false} PrintOfParse(s: string)
    requires AllDigits(s) && (s[0] != '0' || |s| == 1)
    ensures Print(Parse(s)) == s
  {
    var front := s[..|s| - 1];
    assert IsDigit(s[|s| - 1]);
    if |s| == 1 {
      assert Parse(front) == 0;
    } else {
      assert front[0] == s[0];
      PrintOfParse(front);
      LeadingDigitCounts(front);
      assert s == front + [s[|s| - 1]];
    }
  }

  lemma {:induction false} LeadingDigitCounts(s: string)
    requires AllDigits(s) && s[0] != '0'
    ensures Parse(s) > 0
  {
    assert IsDigit(s[0]);
    if |s| > 1 {
      LeadingDigitCounts(s[..|s| - 1]);
    } else {
      assert Parse(s[..0]) == 0;
    }
  }

  /** Printing what was read gives the digits back exactly when they have no needless leading zero. */
  lemma PrintOfParseExactly(s: string)
    requires AllDigits(s)
    ensures Print(Parse(s)) == s <==> s[0] != '0' || |s| == 1
  {
    if s[0] != '0' || |s| == 1 {
      PrintOfParse(s);
    } else {
      PrintHasNoLeadingZero(Parse(s));
    }
  }

  lemma {:induction false} PrintHasNoLeadingZero(n: nat)
    ensures Print(n)[0] != '0' || |Print(n)| == 1
    ensures n > 0 ==> Print(n)[0] != '0'
  {
    if n >= 10 {
      PrintHasNoLeadingZero(n / 10);
    }
  }

  // ----- the token

  /** The signature is a nonempty string of hexadecimal digits. */
  ghost predicate SignsInHex(hmac: string -> string) {
    forall s :: hmac(s) != "" && forall i :: 0 <= i < |hmac(s)| ==> IsDigit(hmac(s)[i]) || 'a' <= hmac(s)[i] <= 'f'
  }

  function Issue(hmac: string -> string, now: nat): string {
    var issuedAt := Print(now);
    issuedAt + "." + hmac(issuedAt)
  }

  /** The first position of the character. */
  function IndexOf(s: string, c: char): (r: Option<nat>)
    ensures r.Some? ==> r.value < |s| && s[r.value] == c && forall i :: 0 <= i < r.value ==> s[i] != c
    ensures r.None? ==> forall i :: 0 <= i < |s| ==> s[i] != c
  {
    if s == "" then None
    else if s[0] == c then Some(0)
    else
      var rest := IndexOf(s[1..], c);
      if rest.Some? then Some(rest.value + 1) else None
  }

  datatype Verdict = Missing | Malformed | BadSignature | TooFast(age: int) | Expired(age: int) | Valid(age: int)

  function Verify(hmac: string -> string, token: string, now: int): Verdict {
    var raw := Text.Trim(token);
    if raw == "" then Missing else
    var dot := IndexOf(raw, '.');
    if dot.None? || dot.value == 0 then Malformed else
    var issuedAt, sig := raw[..dot.value], raw[dot.value + 1..];
    if !AllDigits(issuedAt) then Malformed
    else if sig != hmac(issuedAt) then BadSignature
    else
      var age := now - Parse(issuedAt);
      if age < MIN_AGE then TooFast(age) else if age > MAX_AGE then Expired(age) else Valid(age)
  }

  lemma TrimKeeps(s: string)
    requires s != "" && !Text.IsSpace(s[0]) && !Text.IsSpace(s[|s| - 1])
    ensures Text.Trim(s) == s
  {
  }

  /** Digits followed by a dot and their signature. */
  predicate Signed(hmac: string -> string, raw: string, issuedAt: string) {
    AllDigits(issuedAt) && raw == issuedAt + "." + hmac(issuedAt)
  }

  ghost predicate Splits(raw: string, issuedAt: string, sig: string) {
    AllDigits(issuedAt) && raw == issuedAt + "." + sig
  }

  /** There is one way to split a token into digits, a dot and the rest: at its first dot. */
  lemma SplitsOnce(raw: string, issuedAt: string, sig: string)
    requires Splits(raw, issuedAt, sig)
    ensures IndexOf(raw, '.') == Some(|issuedAt|) && raw[..|issuedAt|] == issuedAt && raw[|issuedAt| + 1..] == sig
  {
    assert raw[|issuedAt|] == '.';
    forall i | 0 <= i < |issuedAt|
      ensures raw[i] != '.'
    {
      assert raw[i] == issuedAt[i] && IsDigit(issuedAt[i]);
    }
  }

  /** A token is accepted exactly when, trimmed, it is digits with their signature and its age is within bounds. */
  lemma AcceptedExactly(hmac: string -> string, token: string, now: int)
    ensures Verify(hmac, token, now).Valid?
            <==> exists issuedAt :: Signed(hmac, Text.Trim(token), issuedAt)
                   && MIN_AGE <= now - Parse(issuedAt) <= MAX_AGE
  {
    var raw := Text.Trim(token);
    if Verify(hmac, token, now).Valid? {
      var dot := IndexOf(raw, '.').value;
      assert raw == raw[..dot] + "." + raw[dot + 1..];
      assert Signed(hmac, raw, raw[..dot]);
    }
    forall issuedAt | Signed(hmac, raw, issuedAt) && MIN_AGE <= now - Parse(issuedAt) <= MAX_AGE
      ensures Verify(hmac, token, now).Valid?
    {
      SplitsOnce(raw, issuedAt, hmac(issuedAt));
    }
  }

  /** A token is missing when it is only spaces, malformed when it does not split, and badly signed when it does. */
  lemma RefusedExactly(hmac: string -> string, token: string, now: int)
    ensures Verify(hmac, token, now).Missing? <==> forall i :: 0 <= i < |token| ==> Text.IsSpace(token[i])
    ensures Verify(hmac, token, now).Malformed?
            <==> Text.Trim(token) != "" && forall issuedAt, sig :: !Splits(Text.Trim(token), issuedAt, sig)
    ensures Verify(hmac, token, now).BadSignature?
            <==> exists issuedAt, sig :: Splits(Text.Trim(token), issuedAt, sig) && sig != hmac(issuedAt)
  {
    var raw := Text.Trim(token);
    Text.TrimExactly(token);
    var at: nat :| Text.SpacesAround(token, raw, at);
    assert raw != "" ==> token[at..at + |raw|][0] == token[at] && !Text.IsSpace(token[at]);
    forall issuedAt, sig | Splits(raw, issuedAt, sig) {
      SplitsOnce(raw, issuedAt, sig);
    }
    var dot := IndexOf(raw, '.');
    if dot.Some? && AllDigits(raw[..dot.value]) {
      assert raw == raw[..dot.value] + "." + raw[dot.value + 1..];
      assert Splits(raw, raw[..dot.value], raw[dot.value + 1..]);
    }
  }

  /** The verdict on a signed token depends on its age alone. */
  lemma SignedVerdict(hmac: string -> string, token: string, issuedAt: string, now: int)
    requires Signed(hmac, Text.Trim(token), issuedAt)
    ensures var age := now - Parse(issuedAt);
      Verify(hmac, token, now)
      == if age < MIN_AGE then TooFast(age) else if age > MAX_AGE then Expired(age) else Valid(age)
  {
    SplitsOnce(Text.Trim(token), issuedAt, hmac(issuedAt));
  }

  /** A token issued at t is accepted exactly from three seconds to a day later. */
  lemma IssuedIsAcceptedExactly(hmac: string -> string, t: nat, now: int)
    requires SignsInHex(hmac)
    ensures Verify(hmac, Issue(hmac, t), now).Valid? <==> 3_000 <= now - t <= 24 * 60 * 60 * 1000
    ensures Verify(hmac, Issue(hmac, t), now).TooFast? <==> now - t < 3_000
    ensures Verify(hmac, Issue(hmac, t), now).Expired? <==> now - t > 24 * 60 * 60 * 1000
  {
    var token, s := Issue(hmac, t), Print(t);
    assert token[0] == s[0] && IsDigit(s[0]);
    assert token[|token| - 1] == hmac(s)[|hmac(s)| - 1];
    TrimKeeps(token);
    ParseOfPrint(t);
    SignedVerdict(hmac, token, s, now);
  }
}
