/** Types and helpers shared by every part of the launch-booking model:
    error kinds, results, instants and day arithmetic, Java string predicates,
    decimal ids, and order-agnostic enumeration of a set. */
module Common {

  /** The five business error kinds (BusinessErrorCode). */
  datatype ErrorCode = Validation | NotFound | Payment | CapacityError | Internal

  datatype Option<+T> = None | Some(value: T)

  /** A value or the kind of the BusinessException that was raised instead. */
  datatype Result<+T> = Ok(value: T) | Err(code: ErrorCode)

  /** The outcome of a check that returns nothing on success. */
  datatype Outcome = Pass | Fail(code: ErrorCode)

  // ---------------------------------------------------------------------------
  // Time. An instant counts seconds on the local time line of LocalDateTime.

  type Instant = int

  const SecondsPerDay: int := 86400

  /** `ChronoUnit.DAYS.between(from, to)`: whole days from `from` to `to`,
      truncated toward zero (so a partial day never counts, in either direction). */
  function DaysBetween(from: Instant, to: Instant): (d: int)
    ensures to >= from ==> d >= 0 && d * SecondsPerDay <= to - from < (d + 1) * SecondsPerDay
    ensures to < from ==> d <= 0 && (d - 1) * SecondsPerDay < to - from <= d * SecondsPerDay
  {
    if to >= from then (to - from) / SecondsPerDay else -((from - to) / SecondsPerDay)
  }

  /** `t.plusDays(n)`: exact, since LocalDateTime has no time zone. */
  function PlusDays(t: Instant, n: int): (r: Instant)
    ensures DaysBetween(t, r) == n
  {
    t + n * SecondsPerDay
  }

  // ---------------------------------------------------------------------------
  // Strings.

  /** `Character.isWhitespace`: the Unicode space, line and paragraph separators
      other than the no-break spaces, and the ASCII controls TAB..CR and FS..US. */
  predicate IsWhitespace(c: char) {
    || c == ' ' || '\t' <= c <= '\r' || '\U{001C}' <= c <= '\U{001F}'
    || c == '\U{1680}' || ('\U{2000}' <= c <= '\U{200A}' && c != '\U{2007}')
    || c == '\U{2028}' || c == '\U{2029}' || c == '\U{205F}' || c == '\U{3000}'
  }

  /** `String.isBlank`. */
  predicate IsBlank(s: string) {
    forall i :: 0 <= i < |s| ==> IsWhitespace(s[i])
  }

  /** `s == null || s.isBlank()`. */
  predicate IsNullOrBlank(s: Option<string>) {
    s.None? || IsBlank(s.value)
  }

  /** `s != null && !s.isEmpty()`. */
  predicate IsPresent(s: Option<string>) {
    s.Some? && s.value != ""
  }

  /** The characters `String.trim` removes: every code point up to U+0020. */
  predicate IsTrimmable(c: char) {
    c <= ' '
  }

  function TrimStart(s: string): (r: string)
    ensures |r| <= |s| && r == s[|s| - |r|..]
    ensures r != [] ==> !IsTrimmable(r[0])
    ensures forall i :: 0 <= i < |s| - |r| ==> IsTrimmable(s[i])
  {
    if s != [] && IsTrimmable(s[0]) then TrimStart(s[1..]) else s
  }

  function TrimEnd(s: string): (r: string)
    ensures |r| <= |s| && r == s[..|r|]
    ensures r != [] ==> !IsTrimmable(r[|r| - 1])
    ensures forall i :: |r| <= i < |s| ==> IsTrimmable(s[i])
  {
    if s != [] && IsTrimmable(s[|s| - 1]) then TrimEnd(s[..|s| - 1]) else s
  }

  /** `String.trim`: drops leading and trailing code points up to U+0020. */
  function Trim(s: string): string {
    TrimEnd(TrimStart(s))
  }

  /** `trim` gives the empty string exactly when every character is trimmable. */
  lemma TrimEmptyIff(s: string)
    ensures Trim(s) == [] <==> forall i :: 0 <= i < |s| ==> IsTrimmable(s[i])
  {
    var t := TrimStart(s);
    if Trim(s) != [] {
      assert t != [];
      assert t == s[|s| - |t|..];
      assert t[0] == s[|s| - |t|];
    }
  }

  function StripStart(s: string): (r: string)
    ensures |r| <= |s| && r == s[|s| - |r|..]
    ensures r != [] ==> !IsWhitespace(r[0])
    ensures forall i :: 0 <= i < |s| - |r| ==> IsWhitespace(s[i])
  {
    if s != [] && IsWhitespace(s[0]) then StripStart(s[1..]) else s
  }

  function StripEnd(s: string): (r: string)
    ensures |r| <= |s| && r == s[..|r|]
    ensures r != [] ==> !IsWhitespace(r[|r| - 1])
    ensures forall i :: |r| <= i < |s| ==> IsWhitespace(s[i])
  {
    if s != [] && IsWhitespace(s[|s| - 1]) then StripEnd(s[..|s| - 1]) else s
  }

  /** `String.strip`: drops leading and trailing `Character.isWhitespace` code points. */
  function Strip(s: string): string {
    StripEnd(StripStart(s))
  }

  /** Stripping the front of a string that is not blank leaves something. */
  lemma StripStartOfNonBlank(s: string)
    requires !IsBlank(s)
    ensures StripStart(s) != []
  {
    var t := StripStart(s);
    var k :| 0 <= k < |s| && !IsWhitespace(s[k]);
    assert |s| - |t| <= k;
  }

  /** Stripping the back of a string that starts with a non-whitespace
      character keeps that character. */
  lemma StripEndKeepsFirst(t: string)
    requires t != [] && !IsWhitespace(t[0])
    ensures StripEnd(t) != [] && StripEnd(t)[0] == t[0]
  {
  }

  /** A string that is not blank keeps a non-whitespace character at both ends
      once stripped, so it is still not blank. */
  lemma StripOfNonBlank(s: string)
    requires !IsBlank(s)
    ensures Strip(s) != [] && !IsBlank(Strip(s))
    ensures !IsWhitespace(Strip(s)[0]) && !IsWhitespace(Strip(s)[|Strip(s)| - 1])
  {
    StripStartOfNonBlank(s);
    StripEndKeepsFirst(StripStart(s));
  }

  /** `Character.toUpperCase`, restricted to the ASCII letters: every other
      character is left as it is, and no locale is consulted. */
  function UpperChar(c: char): char {
    if 'a' <= c <= 'z' then (c as int - 32) as char else c
  }

  function LowerChar(c: char): char {
    if 'A' <= c <= 'Z' then (c as int + 32) as char else c
  }

  /** `String.toUpperCase`, restricted to the ASCII letters (no expansion such
      as "ß" to "SS", no locale). */
  function ToUpper(s: string): (r: string)
    ensures |r| == |s| && forall i :: 0 <= i < |s| ==> r[i] == UpperChar(s[i])
  {
    if s == [] then [] else [UpperChar(s[0])] + ToUpper(s[1..])
  }

  /** The character test of `String.equalsIgnoreCase`, on the ASCII case
      mapping above. */
  predicate CharEqualsIgnoreCase(a: char, b: char) {
    a == b || UpperChar(a) == UpperChar(b) || LowerChar(UpperChar(a)) == LowerChar(UpperChar(b))
  }

  /** `String.equalsIgnoreCase` under the ASCII case mapping. */
  predicate EqualsIgnoreCase(a: string, b: string) {
    |a| == |b| && forall i :: 0 <= i < |a| ==> CharEqualsIgnoreCase(a[i], b[i])
  }

  /** Against a string of capital letters and underscores, upper-casing and then
      comparing is the same as comparing ignoring case. */
  lemma ToUpperMatchesIgnoringCase(name: string, n: string)
    requires forall i :: 0 <= i < |n| ==> 'A' <= n[i] <= 'Z' || n[i] == '_'
    ensures ToUpper(name) == n <==> EqualsIgnoreCase(name, n)
  {
    if EqualsIgnoreCase(name, n) {
      forall i | 0 <= i < |name|
        ensures ToUpper(name)[i] == n[i]
      {
        assert CharEqualsIgnoreCase(name[i], n[i]);
      }
      assert ToUpper(name) == n;
    }
    if ToUpper(name) == n {
      forall i | 0 <= i < |name|
        ensures CharEqualsIgnoreCase(name[i], n[i])
      {
        assert UpperChar(name[i]) == n[i];
      }
    }
  }

  lemma EqualsIgnoreCaseIsEquivalence(a: string, b: string, c: string)
    ensures EqualsIgnoreCase(a, a)
    ensures EqualsIgnoreCase(a, b) ==> EqualsIgnoreCase(b, a)
    ensures EqualsIgnoreCase(a, b) && EqualsIgnoreCase(b, c) ==> EqualsIgnoreCase(a, c)
  {
  }

  // ---------------------------------------------------------------------------
  // Decimal ids: the `"f" + nextId` and `"r" + nextId` of the in-memory stores.

  function DigitChar(d: int): char
    requires 0 <= d < 10
  {
    "0123456789"[d]
  }

  /** `Integer.toString` of a non-negative number. */
  function NatToString(n: nat): (s: string)
    ensures |s| >= 1
    ensures n >= 10 ==> |s| >= 2
    decreases n
  {
    if n < 10 then [DigitChar(n)] else NatToString(n / 10) + [DigitChar(n % 10)]
  }

  lemma {:induction false} NatToStringInjective(n: nat, m: nat)
    requires NatToString(n) == NatToString(m)
    ensures n == m
    decreases n
  {
    var s, t := NatToString(n), NatToString(m);
    if n < 10 && m < 10 {
      assert DigitChar(n) == s[0] == t[0] == DigitChar(m);
    } else if n >= 10 && m >= 10 {
      assert s[|s| - 1] == t[|t| - 1];
      assert DigitChar(n % 10) == DigitChar(m % 10);
      assert s[..|s| - 1] == NatToString(n / 10);
      assert t[..|t| - 1] == NatToString(m / 10);
      NatToStringInjective(n / 10, m / 10);
    } else {
      assert false;
    }
  }

  /** Two ids built from one prefix and two counters are equal only if the counters are. */
  lemma PrefixedIdInjective(prefix: string, n: nat, m: nat)
    requires prefix + NatToString(n) == prefix + NatToString(m)
    ensures n == m
  {
    assert NatToString(n) == (prefix + NatToString(n))[|prefix|..];
    assert NatToString(m) == (prefix + NatToString(m))[|prefix|..];
    NatToStringInjective(n, m);
  }

  // ---------------------------------------------------------------------------
  // Sequences.

  /** Concatenation is associative; stated once so that long proofs need not
      rediscover it element by element. */
  lemma ConcatAssociative<T>(a: seq<T>, b: seq<T>, c: seq<T>)
    ensures a + (b + c) == (a + b) + c
  {
  }

  predicate Distinct<T(==)>(s: seq<T>) {
    forall i, j :: 0 <= i < j < |s| ==> s[i] != s[j]
  }

  /** The elements of a set in an order the model leaves open
      (the iteration order of a HashMap's values). */
  method Enumerate<T(==)>(s: set<T>) returns (r: seq<T>)
    ensures forall x :: x in r <==> x in s
    ensures Distinct(r)
    ensures |r| == |s|
  {
    var rest := s;
    r := [];
    while rest != {}
      invariant rest <= s
      invariant forall x :: x in r <==> x in s - rest
      invariant Distinct(r)
      invariant |r| + |rest| == |s|
      decreases |rest|
    {
      var x :| x in rest;
      r := r + [x];
      rest := rest - {x};
    }
  }

  /** Keeps the elements of `s` satisfying `p`, in order (a stream `filter`). */
  function Filter<T>(s: seq<T>, p: T -> bool): (r: seq<T>)
    ensures |r| <= |s|
    ensures forall i :: 0 <= i < |r| ==> r[i] in s && p(r[i])
    ensures forall i :: 0 <= i < |s| && p(s[i]) ==> s[i] in r
  {
    if s == [] then [] else (if p(s[0]) then [s[0]] else []) + Filter(s[1..], p)
  }

  /** `Filter` keeps every element satisfying `p` exactly as often as `s` holds it. */
  lemma {:induction false} FilterCounts<T>(s: seq<T>, p: T -> bool)
    ensures forall i :: 0 <= i < |s| ==> multiset(Filter(s, p))[s[i]] == if p(s[i]) then multiset(s)[s[i]] else 0
  {
    if s != [] {
      FilterCounts(s[1..], p);
      assert s == [s[0]] + s[1..];
      forall i | 0 <= i < |s|
        ensures multiset(Filter(s, p))[s[i]] == if p(s[i]) then multiset(s)[s[i]] else 0
      {
        if s[i] !in s[1..] {
          assert multiset(Filter(s[1..], p))[s[i]] == 0;
        } else {
          var j :| 0 <= j < |s[1..]| && s[1..][j] == s[i];
        }
      }
    }
  }

  lemma {:induction false} FilterDistinct<T>(s: seq<T>, p: T -> bool)
    requires Distinct(s)
    ensures Distinct(Filter(s, p))
  {
    if s != [] {
      FilterDistinct(s[1..], p);
      assert s[0] !in s[1..];
    }
  }

  lemma {:induction false} FilterConcat<T>(a: seq<T>, b: seq<T>, p: T -> bool)
    ensures Filter(a + b, p) == Filter(a, p) + Filter(b, p)
  {
    if a == [] {
      assert a + b == b;
    } else {
      assert (a + b)[1..] == a[1..] + b;
      FilterConcat(a[1..], b, p);
    }
  }

}
