/**
 The value LoginServer stores under a token, "{account_id}:{user_id}", and how GameServer reads it:
 split at the first colon, then `str::parse::<u64>` on the left part.
 */
module TokenValue {
  import opened Prelude

  datatype Account = Account(accountId: u64, userId: string)

  function DigitChar(d: nat): (c: char)
    requires d < 10
    ensures '0' <= c <= '9' && c as int - '0' as int == d
  {
    ('0' as int + d) as char
  }

  predicate IsDigit(c: char) { '0' <= c <= '9' }

  function DigitValue(c: char): (d: nat)
    requires IsDigit(c)
    ensures d < 10
  {
    c as int - '0' as int
  }

  predicate AllDigits(s: string) { forall i | 0 <= i < |s| :: IsDigit(s[i]) }

  /** The decimal form of a number, without leading zeros. */
  function FormatNat(n: nat): string {
    if n < 10 then [DigitChar(n)] else FormatNat(n / 10) + [DigitChar(n % 10)]
  }

  function Format(account: Account): string {
    FormatNat(account.accountId) + ":" + account.userId
  }

  /** Digits from left to right; overflow or any other character is an error. */
  function ParseDigits(s: string, acc: u64): Option<u64> {
    if s == [] then Some(acc)
    else if !IsDigit(s[0]) then None
    else
      var next := 10 * acc + DigitValue(s[0]);
      if next >= U64_LIMIT then None else ParseDigits(s[1..], next)
  }

  /** `str::parse::<u64>`: one leading '+' is allowed, an empty or bare-sign string is not. */
  function ParseU64(s: string): Option<u64> {
    var digits := if |s| > 1 && s[0] == '+' then s[1..] else s;
    if digits == [] then None else ParseDigits(digits, 0)
  }

  function FirstColon(s: string): (i: nat)
    ensures i <= |s| && ':' !in s[..i] && (i < |s| ==> s[i] == ':')
  {
    if s == [] || s[0] == ':' then 0
    else 1 + FirstColon(s[1..])
  }

  function Parse(value: string): Option<Account> {
    var i := FirstColon(value);
    if i == |value| then None else
    match ParseU64(value[..i])
    case Some(id) => Some(Account(id, value[i + 1..]))
    case None => None
  }

  // ---------------------------------------------------------------- round trip

  /** What a digit string means. */
  function Value(s: string, acc: nat): nat
    requires AllDigits(s)
  {
    if s == [] then acc else Value(s[1..], 10 * acc + DigitValue(s[0]))
  }

  lemma {:induction false} ValueGrows(s: string, acc: nat)
    requires AllDigits(s)
    ensures Value(s, acc) >= acc
  {
    if s == [] {
    } else {
      ValueGrows(s[1..], 10 * acc + DigitValue(s[0]));
    }
  }

  lemma {:induction false} ValueAppend(s: string, c: char, acc: nat)
    requires AllDigits(s) && IsDigit(c)
    ensures AllDigits(s + [c]) && Value(s + [c], acc) == 10 * Value(s, acc) + DigitValue(c)
  {
    if s == [] {
      assert s + [c] == [c] && [c][1..] == [];
    } else {
      assert (s + [c])[1..] == s[1..] + [c];
      ValueAppend(s[1..], c, 10 * acc + DigitValue(s[0]));
    }
  }

  /** Parsing digits succeeds exactly on digit strings whose value fits. */
  lemma {:induction false} ParseDigitsIff(s: string, acc: u64)
    ensures ParseDigits(s, acc).Some? <==> AllDigits(s) && Value(s, acc) < U64_LIMIT
    ensures ParseDigits(s, acc).Some? ==> ParseDigits(s, acc).value == Value(s, acc)
  {
    if s == [] || !IsDigit(s[0]) {
    } else {
      var next := 10 * acc + DigitValue(s[0]);
      assert AllDigits(s) <==> AllDigits(s[1..]) by {
        assert forall i | 0 <= i < |s| - 1 :: s[1..][i] == s[i + 1];
        assert forall i | 1 <= i < |s| :: s[i] == s[1..][i - 1];
      }
      if next < U64_LIMIT {
        ParseDigitsIff(s[1..], next);
      } else if AllDigits(s) {
        ValueGrows(s[1..], next);
      }
    }
  }

  lemma {:induction false} FormatNatValue(n: nat)
    ensures FormatNat(n) != [] && AllDigits(FormatNat(n)) && Value(FormatNat(n), 0) == n
    ensures |FormatNat(n)| > 1 ==> FormatNat(n)[0] != '0'
    ensures n > 0 ==> FormatNat(n)[0] != '0'
  {
    if n < 10 {
      assert FormatNat(n)[1..] == [];
    } else {
      FormatNatValue(n / 10);
      ValueAppend(FormatNat(n / 10), DigitChar(n % 10), 0);
    }
  }

  lemma FirstColonIs(s: string, rest: string)
    requires ':' !in s
    ensures FirstColon(s + ":" + rest) == |s|
  {
    var t := s + ":" + rest;
    var i := FirstColon(t);
    assert t[|s|] == ':' && forall k | 0 <= k < |s| :: t[k] == s[k];
    assert forall k | 0 <= k < i :: t[..i][k] == t[k];
  }

  /** Reading a stored value gives back both parts, for every account and every user_id. */
  lemma RoundTrip(account: Account)
    ensures Parse(Format(account)) == Some(account)
  {
    var digits := FormatNat(account.accountId);
    FormatNatValue(account.accountId);
    assert ':' !in digits;
    FirstColonIs(digits, account.userId);
    var value := Format(account);
    assert value[..|digits|] == digits;
    assert value[|digits| + 1..] == account.userId;
    assert !(|digits| > 1 && digits[0] == '+');
    ParseDigitsIff(digits, 0);
  }

  /** Which values are readable, and what they mean. */
  lemma ParseIff(value: string, account: Account)
    ensures Parse(value) == Some(account) <==>
            exists sign: string, digits: string ::
              (sign == "" || sign == "+") && digits != [] && AllDigits(digits) &&
              Value(digits, 0) == account.accountId && value == sign + digits + ":" + account.userId
  {
    var i := FirstColon(value);
    if Parse(value) == Some(account) {
      var left := value[..i];
      var sign := if |left| > 1 && left[0] == '+' then "+" else "";
      var digits := left[|sign|..];
      ParseDigitsIff(digits, 0);
      assert left == sign + digits;
      assert value == sign + digits + ":" + account.userId;
    }
    if sign: string, digits: string :|
        (sign == "" || sign == "+") && digits != [] && AllDigits(digits) &&
        Value(digits, 0) == account.accountId && value == sign + digits + ":" + account.userId {
      var left := sign + digits;
      assert ':' !in left;
      FirstColonIs(left, account.userId);
      assert value == left + ":" + account.userId;
      assert value[..|left|] == left && value[|left| + 1..] == account.userId;
      assert digits == if |left| > 1 && left[0] == '+' then left[1..] else left;
      ParseDigitsIff(digits, 0);
    }
  }

  /** Different accounts never share a stored value. */
  lemma FormatInjective(a: Account, b: Account)
    requires Format(a) == Format(b)
    ensures a == b
  {
    RoundTrip(a);
    RoundTrip(b);
  }
}
