/** Usernames derived from an email's local part: the first free candidate of a numbered list. */
module Usernames {

  const LIMIT: nat := 150

  // ---- Python's text operations ----

  /** What the model does not spell out of Unicode. */
  datatype Text = Text(strip: string -> string, lower: string -> string, isAlnum: char -> bool)

  /** `s[:n]`, where a negative `n` counts from the end. */
  function Prefix(s: string, n: int): string {
    if n >= |s| then s
    else if n >= 0 then s[..n]
    else if |s| + n >= 0 then s[..|s| + n]
    else ""
  }

  /** `str(n)`. */
  function Digits(n: nat): (s: string)
    ensures |s| >= 1 && (n >= 10 ==> |s| >= 2)
  {
    var last := "0123456789"[n % 10];
    if n < 10 then [last] else Digits(n / 10) + [last]
  }

  function LocalPart(email: string): string {
    if email == "" || email[0] == '@' then "" else [email[0]] + LocalPart(email[1..])
  }

  function Kept(s: string, text: Text): string {
    if s == "" then ""
    else (if text.isAlnum(s[0]) || s[0] in "._-" then [s[0]] else "") + Kept(s[1..], text)
  }

  function OrUser(s: string): string { if s == "" then "user" else s }

  function Base(email: string, text: Text): string {
    OrUser(Kept(OrUser(text.lower(text.strip(LocalPart(email)))), text))
  }

  /** A slice from the front: as long as asked, or short of the end by as much as the number is negative. */
  lemma PrefixIs(s: string, n: int)
    ensures Prefix(s, n) <= s
    ensures n >= 0 ==> |Prefix(s, n)| == if n <= |s| then n else |s|
    ensures n < 0 ==> |Prefix(s, n)| == if -n <= |s| then |s| + n else 0
  {
  }

  /** A decimal numeral of the number, without leading zeros. */
  ghost predicate IsNumeral(s: string, n: nat) {
    && s != "" && (forall i :: 0 <= i < |s| ==> '0' <= s[i] <= '9') && (n > 0 ==> s[0] != '0') && (n == 0 ==> s == "0")
    && NumeralValue(s) == n
  }

  function NumeralValue(s: string): int {
    if s == "" then 0
    else 10 * NumeralValue(s[..|s| - 1]) + (s[|s| - 1] as int - '0' as int)
  }

  lemma {:induction false} DigitsAreNumeral(n: nat)
    ensures IsNumeral(Digits(n), n)
  {
    var s := Digits(n);
    assert '0' <= "0123456789"[n % 10] <= '9' && "0123456789"[n % 10] as int - '0' as int == n % 10;
    if n < 10 {
      assert s[..0] == "";
    } else {
      DigitsAreNumeral(n / 10);
      assert s[..|s| - 1] == Digits(n / 10);
    }
  }

  // ---- what is left of an address ----

  /** Everything before the first `@`. */
  lemma {:induction false} LocalPartIs(email: string)
    ensures '@' !in LocalPart(email)
    ensures LocalPart(email) == email || LocalPart(email) + "@" <= email
  {
    if email != "" && email[0] != '@' { LocalPartIs(email[1..]); }
  }

  predicate Usable(text: Text, c: char) { text.isAlnum(c) || c == '.' || c == '_' || c == '-' }

  /** Usable characters stay, as often as they occur, and no other. */
  lemma {:induction false} KeptCounts(s: string, text: Text, c: char)
    ensures multiset(Kept(s, text))[c] == if Usable(text, c) then multiset(s)[c] else 0
  {
    if s != "" {
      assert s == [s[0]] + s[1..];
      KeptCounts(s[1..], text, c);
    }
  }

  /** Their order stays too. */
  lemma {:induction false} KeptSplits(a: string, b: string, text: Text)
    ensures Kept(a + b, text) == Kept(a, text) + Kept(b, text)
  {
    if a == "" {
      assert a + b == b;
    } else {
      assert (a + b)[1..] == a[1..] + b;
      KeptSplits(a[1..], b, text);
    }
  }

  /** MAIN: the base is what is usable of the address's local part, stripped and in lower case, and `user` if that is
      nothing. */
  lemma BaseIs(email: string, text: Text, local: string)
    requires local == text.lower(text.strip(LocalPart(email)))
    requires text.isAlnum('u') && text.isAlnum('s') && text.isAlnum('e') && text.isAlnum('r')
    ensures (forall c :: c in local ==> !Usable(text, c)) ==> Base(email, text) == "user"
    ensures (exists c :: c in local && Usable(text, c)) ==> Base(email, text) == Kept(local, text) != ""
  {
    forall c ensures c in Kept(local, text) <==> c in local && Usable(text, c) {
      KeptCounts(local, text, c);
      assert c in Kept(local, text) <==> multiset(Kept(local, text))[c] > 0;
      assert c in local <==> multiset(local)[c] > 0;
    }
    if Kept(local, text) != "" { assert Kept(local, text)[0] in Kept(local, text); }
    KeptAll("user", text);
  }

  lemma {:induction false} KeptAll(s: string, text: Text)
    requires forall c :: c in s ==> Usable(text, c)
    ensures Kept(s, text) == s
  {
    if s != "" {
      assert s[0] in s && s == [s[0]] + s[1..];
      KeptAll(s[1..], text);
    }
  }

  // ---- the numbered candidates ----

  function Suffixed(base: string, suffix: string): string { Prefix(base, LIMIT - |suffix|) + suffix }

  /** The first candidate is bare; the i-th ends in i. */
  function Candidate(base: string, i: nat): string {
    if i <= 1 then Prefix(base, LIMIT) else Suffixed(base, Digits(i))
  }

  /** The base itself, cut to 150 characters, or a numeral after as much of the base as leaves room for it; a numeral
      of more than 150 digits is cut no further than the base. */
  ghost predicate IsNumbered(base: string, n: nat, name: string) {
    if n <= 1 then name <= base && |name| == if |base| <= 150 then |base| else 150
    else
      exists head, numeral :: name == head + numeral && IsCutFor(base, head, |numeral|) && IsNumeral(numeral, n)
  }

  ghost predicate IsCutFor(base: string, head: string, width: nat) {
    && head <= base
    && |head| == if width <= 150 then (if |base| <= 150 - width then |base| else 150 - width)
                 else if width - 150 <= |base| then |base| - (width - 150) else 0
  }

  lemma CandidateIsNumbered(base: string, n: nat)
    ensures IsNumbered(base, n, Candidate(base, n))
  {
    if n <= 1 {
      PrefixIs(base, LIMIT);
    } else {
      var numeral := Digits(n);
      DigitsAreNumeral(n);
      PrefixIs(base, LIMIT - |numeral|);
      assert IsCutFor(base, Prefix(base, LIMIT - |numeral|), |numeral|);
    }
  }

  function Pow10(d: nat): (p: nat)
    ensures p > d
  {
    if d == 0 then 1 else 10 * Pow10(d - 1)
  }

  lemma {:induction false} DigitsInjective(a: nat, b: nat)
    requires Digits(a) == Digits(b)
    ensures a == b
  {
    var s := Digits(a);
    assert s[|s| - 1] == "0123456789"[a % 10] == "0123456789"[b % 10];
    LastDigit(a % 10, b % 10);
    if a >= 10 {
      assert Digits(a / 10) == s[..|s| - 1] == Digits(b / 10);
      DigitsInjective(a / 10, b / 10);
    }
  }

  lemma LastDigit(x: nat, y: nat)
    requires x < 10 && y < 10 && "0123456789"[x] == "0123456789"[y]
    ensures x == y
  {
  }

  lemma {:induction false} DigitCount(n: nat, d: nat)
    requires d >= 1 && Pow10(d - 1) <= n < Pow10(d)
    ensures |Digits(n)| == d
  {
    if d > 1 {
      DigitCount(n / 10, d - 1);
    }
  }

  /** Counters with equally many digits give different candidates, however the base is truncated. */
  lemma CandidatesDiffer(base: string, i: nat, j: nat)
    requires i > 1 && j > 1 && i != j && |Digits(i)| == |Digits(j)|
    ensures Candidate(base, i) != Candidate(base, j)
  {
    var d := |Digits(i)|;
    var a, b := Candidate(base, i), Candidate(base, j);
    assert a[|a| - d..] == Digits(i) && b[|b| - d..] == Digits(j);
    if a == b { DigitsInjective(i, j); }
  }

  /** Pigeonhole: more counters of one digit length than names in use leave a free one. */
  lemma {:induction false} FreeAmong(base: string, used: set<string>, lo: nat, hi: nat, d: nat) returns (i: nat)
    requires 1 < lo <= hi && hi - lo > |used|
    requires forall k :: lo <= k < hi ==> |Digits(k)| == d
    ensures lo <= i < hi && Candidate(base, i) !in used
    decreases hi
  {
    var c := Candidate(base, hi - 1);
    if c !in used {
      i := hi - 1;
    } else {
      i := FreeAmong(base, used - {c}, lo, hi - 1, d);
      CandidatesDiffer(base, i, hi - 1);
    }
  }

  lemma FreeOfLength(base: string, used: set<string>, d: nat) returns (i: nat)
    requires d > 1 && |used| < 9 * Pow10(d - 1)
    ensures 1 < i < Pow10(d) && Candidate(base, i) !in used
  {
    forall k | Pow10(d - 1) <= k < Pow10(d) ensures |Digits(k)| == d { DigitCount(k, d); }
    i := FreeAmong(base, used, Pow10(d - 1), Pow10(d), d);
  }

  ghost predicate FirstFree(base: string, used: set<string>, n: nat) {
    n >= 1 && Candidate(base, n) !in used && TakenBelow(base, used, n)
  }

  ghost predicate TakenBelow(base: string, used: set<string>, n: nat) {
    forall k :: 1 <= k < n ==> Candidate(base, k) in used
  }

  lemma AnotherTaken(base: string, used: set<string>, n: nat)
    requires TakenBelow(base, used, n) && Candidate(base, n) in used
    ensures TakenBelow(base, used, n + 1)
  {
    forall k | 1 <= k < n + 1 ensures Candidate(base, k) in used { if k != n { assert 1 <= k < n; } }
  }

  lemma SomeFree(base: string, used: set<string>) returns (i: nat)
    ensures i > 1 && Candidate(base, i) !in used
  {
    i := FreeOfLength(base, used, |used| + 2);
  }

  /** The loop of `unique_username_from_email`.  It ends for every finite set of names in use. */
  method FirstFreeCandidate(base: string, used: set<string>) returns (candidate: string, ghost n: nat)
    ensures FirstFree(base, used, n) && candidate == Candidate(base, n)
  {
    candidate := Prefix(base, LIMIT);
    var i := 1;
    ghost var free := SomeFree(base, used);
    while candidate in used
      invariant 1 <= i <= free && candidate == Candidate(base, i)
      invariant TakenBelow(base, used, i)
      decreases free - i
    {
      AnotherTaken(base, used, i);
      i := i + 1;
      var suffix := Digits(i);
      candidate := Suffixed(base, suffix);
    }
    n := i;
  }

  /** `unique_username_from_email`. */
  method UniqueUsername(email: string, text: Text, used: set<string>) returns (candidate: string, ghost n: nat)
    ensures candidate !in used
    ensures FirstFree(Base(email, text), used, n) && candidate == Candidate(Base(email, text), n)
    ensures IsNumbered(Base(email, text), n, candidate)
  {
    candidate, n := FirstFreeCandidate(Base(email, text), used);
    CandidateIsNumbered(Base(email, text), n);
  }

  // ---- the column width ----

  lemma {:induction false} FewDigits(n: nat, d: nat)
    requires d >= 1
    ensures |Digits(n)| <= d <==> n < Pow10(d)
    decreases d
  {
    if d > 1 && n >= 10 { FewDigits(n / 10, d - 1); }
  }

  lemma CandidateFits(base: string, i: nat)
    requires i >= 1
    ensures |Candidate(base, i)| <= LIMIT <==> i < Pow10(LIMIT)
  {
    FewDigits(i, LIMIT);
    if i <= 1 { assert Pow10(LIMIT) > LIMIT; }
  }

  /** MAIN: the chosen name fits the 150-character column if and only if some candidate numbered below
      10^150 is free; beyond that the slice turns negative and the name outgrows the column. */
  lemma FitsIff(base: string, used: set<string>, n: nat)
    requires FirstFree(base, used, n)
    ensures |Candidate(base, n)| <= 150 <==> exists i :: 1 <= i < Pow10(150) && Candidate(base, i) !in used
  {
    CandidateFits(base, n);
  }

  /** MAIN: fewer than 9 * 10^149 names in use always leave one that fits. */
  lemma FitsInSmallTables(base: string, used: set<string>, n: nat)
    requires FirstFree(base, used, n) && |used| < 9 * Pow10(149)
    ensures |Candidate(base, n)| <= 150
  {
    var i := FreeOfLength(base, used, LIMIT);
    FitsIff(base, used, n);
  }

  /** Different counters can give one candidate, so the counter alone does not bound the loop. */
  lemma TruncationCollides()
    ensures var base := seq(LIMIT, _ => '1'); Candidate(base, 1) == Candidate(base, 11)
  {
    var base := seq(LIMIT, _ => '1');
    assert Digits(1) == "1";
    assert Digits(11) == "11";
  }
}
