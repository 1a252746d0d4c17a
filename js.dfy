/** The JavaScript semantics the route handlers rely on: optional request-body fields and
    their truthiness, and the string operations they call (`split`, `pop`, `trim`,
    `toLowerCase`, `length`, template-literal number formatting, a regular expression). */
module Js {

  datatype Option<+T> = None | Some(value: T) {
    /** `x || fallback` when every present value is truthy; `x ?? fallback` otherwise */
    function GetOr(fallback: T): T {
      match this
      case Some(v) => v
      case None => fallback
    }
  }

  /** Truthiness of a string field of a JSON body: present (not undefined or null) and not "" */
  predicate Given(field: Option<string>) {
    field.Some? && field.value != ""
  }

  /** Truthiness of a numeric field of a JSON body: present and not 0 */
  predicate GivenNumber(field: Option<int>) {
    field.Some? && field.value != 0
  }

  // ---------------------------------------------------------------------------
  // Whitespace, as matched by `\s` and removed by String.prototype.trim

  predicate IsSpace(c: char) {
    || c == ' ' || c == '\t' || c == '\n' || c == '\r' || c == '\U{000B}' || c == '\U{000C}'
    || c == '\U{00A0}' || c == '\U{1680}' || ('\U{2000}' <= c <= '\U{200A}')
    || c == '\U{2028}' || c == '\U{2029}' || c == '\U{202F}' || c == '\U{205F}'
    || c == '\U{3000}' || c == '\U{FEFF}'
  }

  predicate NoSpace(s: string) {
    forall i :: 0 <= i < |s| ==> !IsSpace(s[i])
  }

  function TrimStart(s: string): (r: string)
    ensures r == [] || !IsSpace(r[0])
    ensures |r| <= |s| && r == s[|s| - |r|..]
    ensures forall i :: 0 <= i < |s| - |r| ==> IsSpace(s[i])
  {
    if s != [] && IsSpace(s[0]) then TrimStart(s[1..]) else s
  }

  function TrimEnd(s: string): (r: string)
    ensures r == [] || !IsSpace(r[|r| - 1])
    ensures |r| <= |s| && r == s[..|r|]
    ensures forall i :: |r| <= i < |s| ==> IsSpace(s[i])
  {
    if s != [] && IsSpace(s[|s| - 1]) then TrimEnd(s[..|s| - 1]) else s
  }

  /** String.prototype.trim */
  function Trim(s: string): (r: string)
    ensures r == [] || (!IsSpace(r[0]) && !IsSpace(r[|r| - 1]))
  {
    TrimEnd(TrimStart(s))
  }

  /** A string with no whitespace at either end is its own trim */
  lemma TrimOfTrimmed(s: string)
    requires s == [] || (!IsSpace(s[0]) && !IsSpace(s[|s| - 1]))
    ensures Trim(s) == s
  {
    var t := TrimStart(s);
    if s != [] {
      assert t == s;
    }
  }

  lemma TrimIdempotent(s: string)
    ensures Trim(Trim(s)) == Trim(s)
  {
    TrimOfTrimmed(Trim(s));
  }

  /** `list.map((u) => u.trim())` */
  function TrimAll(list: seq<string>): (r: seq<string>)
    ensures |r| == |list|
    ensures forall i :: 0 <= i < |list| ==> r[i] == Trim(list[i])
  {
    seq(|list|, i requires 0 <= i < |list| => Trim(list[i]))
  }

  /** `list.filter(Boolean)` on a list of strings: drops the empty ones, keeps the order */
  function NonEmpty(list: seq<string>): (r: seq<string>)
    ensures |r| <= |list|
    ensures forall x :: x in r <==> x in list && x != ""
  {
    if list == [] then []
    else (if list[0] != "" then [list[0]] else []) + NonEmpty(list[1..])
  }

  lemma {:induction false} NonEmptyConcat(a: seq<string>, b: seq<string>)
    ensures NonEmpty(a + b) == NonEmpty(a) + NonEmpty(b)
  {
    if a == [] {
      assert a + b == b;
    } else {
      assert (a + b)[0] == a[0];
      assert (a + b)[1..] == a[1..] + b;
      NonEmptyConcat(a[1..], b);
    }
  }

  /** A list without empty strings is kept whole */
  lemma {:induction false} NonEmptyOfNonBlank(list: seq<string>)
    requires forall i :: 0 <= i < |list| ==> list[i] != ""
    ensures NonEmpty(list) == list
  {
    if list != [] {
      NonEmptyOfNonBlank(list[1..]);
    }
  }

  // ---------------------------------------------------------------------------
  // String.prototype.split with a one-character separator, and its inverse

  function Split(s: string, sep: char): (parts: seq<string>)
    ensures |parts| >= 1
    ensures forall i :: 0 <= i < |parts| ==> sep !in parts[i]
  {
    if s == [] then [""]
    else
      var rest := Split(s[1..], sep);
      if s[0] == sep then [""] + rest
      else [[s[0]] + rest[0]] + rest[1..]
  }

  /** Array.prototype.join with a one-character separator */
  function Join(parts: seq<string>, sep: char): string
    requires |parts| >= 1
  {
    if |parts| == 1 then parts[0] else parts[0] + [sep] + Join(parts[1..], sep)
  }

  function Last<T>(s: seq<T>): T
    requires |s| >= 1
  {
    s[|s| - 1]
  }

  lemma {:induction false} JoinSplit(s: string, sep: char)
    ensures Join(Split(s, sep), sep) == s
  {
    if s != [] {
      var rest := Split(s[1..], sep);
      JoinSplit(s[1..], sep);
      if s[0] == sep {
        assert Split(s, sep)[1..] == rest;
      } else if |rest| > 1 {
        var parts := Split(s, sep);
        assert parts[1..] == rest[1..];
        assert Join(rest, sep) == rest[0] + [sep] + Join(rest[1..], sep);
      }
    }
  }

  /** One step of a split: the first character either ends the first part or joins it */
  lemma SplitCons(c: char, t: string, sep: char)
    ensures Split([c] + t, sep) == Prepend(c, sep, Split(t, sep))
  {
    var s := [c] + t;
    assert s[0] == c && s[1..] == t;
  }

  /** The parts of a string one character longer: a separator opens a new empty part,
      any other character joins the first part */
  function Prepend(c: char, sep: char, parts: seq<string>): (r: seq<string>)
    requires |parts| >= 1
    ensures |r| == |parts| + (if c == sep then 1 else 0)
  {
    if c == sep then [""] + parts else [[c] + parts[0]] + parts[1..]
  }

  lemma {:induction false} SplitConcat(a: string, sep: char, b: string)
    ensures Split(a + [sep] + b, sep) == Split(a, sep) + Split(b, sep)
  {
    if a == [] {
      assert a + [sep] + b == [sep] + b;
      SplitCons(sep, b, sep);
    } else {
      assert a == [a[0]] + a[1..];
      SplitConcat(a[1..], sep, b);
      SplitConcatStep(a[0], a[1..], sep, b);
    }
  }

  /** The inductive step of `SplitConcat`: one more character in front */
  lemma SplitConcatStep(c: char, rest: string, sep: char, b: string)
    requires Split(rest + [sep] + b, sep) == Split(rest, sep) + Split(b, sep)
    ensures Split([c] + rest + [sep] + b, sep) == Split([c] + rest, sep) + Split(b, sep)
  {
    var tail := rest + [sep] + b;
    var head, parts := Split(rest, sep), Split(b, sep);
    calc {
      Split([c] + rest + [sep] + b, sep);
    == { assert [c] + rest + [sep] + b == [c] + tail; }
      Split([c] + tail, sep);
    == { SplitCons(c, tail, sep); }
      Prepend(c, sep, head + parts);
    == { PrependConcat(c, sep, head, parts); }
      Prepend(c, sep, head) + parts;
    == { SplitCons(c, rest, sep); }
      Split([c] + rest, sep) + parts;
    }
  }

  /** Prepending a character touches only the first part */
  lemma PrependConcat(c: char, sep: char, head: seq<string>, tail: seq<string>)
    requires |head| >= 1
    ensures Prepend(c, sep, head + tail) == Prepend(c, sep, head) + tail
  {
    assert (head + tail)[0] == head[0];
    assert (head + tail)[1..] == head[1..] + tail;
  }


  lemma {:induction false} SplitWithoutSep(s: string, sep: char)
    requires sep !in s
    ensures Split(s, sep) == [s]
  {
    if s != [] {
      SplitWithoutSep(s[1..], sep);
      assert [s[0]] + s[1..] == s;
    }
  }

  /** Splitting undoes joining segments that do not contain the separator */
  lemma {:induction false} SplitJoin(parts: seq<string>, sep: char)
    requires |parts| >= 1
    requires forall i :: 0 <= i < |parts| ==> sep !in parts[i]
    ensures Split(Join(parts, sep), sep) == parts
  {
    if |parts| == 1 {
      SplitWithoutSep(parts[0], sep);
    } else {
      SplitJoin(parts[1..], sep);
      SplitConcat(parts[0], sep, Join(parts[1..], sep));
      SplitWithoutSep(parts[0], sep);
    }
  }

  /** The first segment of a split is the longest separator-free prefix */
  lemma SplitHead(s: string, sep: char)
    ensures var h := Split(s, sep)[0];
            |h| <= |s| && h == s[..|h|] && sep !in h && (|h| == |s| || s[|h|] == sep)
  {
    var parts := Split(s, sep);
    JoinSplit(s, sep);
    if |parts| > 1 {
      assert s == parts[0] + [sep] + Join(parts[1..], sep);
    }
  }

  /** Joining puts the separator before the last segment */
  lemma {:induction false} JoinLast(parts: seq<string>, sep: char)
    requires |parts| >= 2
    ensures Join(parts, sep) == Join(parts[..|parts| - 1], sep) + [sep] + Last(parts)
  {
    if |parts| > 2 {
      JoinLast(parts[1..], sep);
      assert parts[1..][..|parts| - 2] == parts[..|parts| - 1][1..];
    }
  }

  /** The last segment of a split is the longest separator-free suffix */
  lemma SplitLast(s: string, sep: char)
    ensures var t := Last(Split(s, sep));
            |t| <= |s| && t == s[|s| - |t|..] && sep !in t && (|t| == |s| || s[|s| - |t| - 1] == sep)
  {
    var parts := Split(s, sep);
    JoinSplit(s, sep);
    if |parts| > 1 {
      JoinLast(parts, sep);
    } else {
      assert Last(parts) == parts[0];
    }
  }

  // ---------------------------------------------------------------------------
  // Case mapping, lengths and number formatting

  function LowerChar(c: char): char {
    if 'A' <= c <= 'Z' then (c as int + 32) as char else c
  }

  /** String.prototype.toLowerCase on the ASCII letters */
  function ToLower(s: string): (r: string)
    ensures |r| == |s|
    ensures forall i :: 0 <= i < |s| ==> r[i] == LowerChar(s[i])
  {
    if s == [] then [] else [LowerChar(s[0])] + ToLower(s[1..])
  }

  /** `s.length`: the number of UTF-16 code units, two for a character outside the BMP */
  function Utf16Length(s: string): (n: nat)
    ensures |s| <= n <= 2 * |s|
  {
    if s == [] then 0 else (if s[0] as int > 0xFFFF then 2 else 1) + Utf16Length(s[1..])
  }

  predicate IsDigit(c: char) {
    '0' <= c <= '9'
  }

  /** A non-negative integer written in decimal, as `${n}` renders it */
  function Decimal(n: nat): (r: string)
    ensures |r| >= 1
    ensures forall i :: 0 <= i < |r| ==> IsDigit(r[i])
  {
    if n < 10 then [(48 + n) as char] else Decimal(n / 10) + [(48 + n % 10) as char]
  }

  /** The number a string of decimal digits spells, most significant digit first */
  function DigitsValue(s: string): int {
    if s == [] then 0 else DigitsValue(s[..|s| - 1]) * 10 + (s[|s| - 1] as int - 48)
  }

  /** The rendering spells `n`, with no leading zero */
  lemma {:induction false} DecimalValue(n: nat)
    ensures DigitsValue(Decimal(n)) == n
    ensures n >= 10 ==> Decimal(n)[0] != '0'
  {
    var d := Decimal(n);
    if n >= 10 {
      DecimalValue(n / 10);
      assert d[..|d| - 1] == Decimal(n / 10);
      assert d[0] == Decimal(n / 10)[0];
    }
  }

  /** Two numbers render alike only when they are equal */
  lemma DecimalInjective(m: nat, n: nat)
    requires Decimal(m) == Decimal(n)
    ensures m == n
  {
    DecimalValue(m);
    DecimalValue(n);
  }


  predicate StartsWith(s: string, prefix: string) {
    |prefix| <= |s| && s[..|prefix|] == prefix
  }

  /** `part` occurs in `s` at position `i` */
  predicate OccursAt(s: string, part: string, i: int) {
    0 <= i <= |s| - |part| && s[i..i + |part|] == part
  }

  /** String.prototype.includes */
  predicate Contains(s: string, part: string) {
    exists i | 0 <= i <= |s| - |part| :: OccursAt(s, part, i)
  }

  // ---------------------------------------------------------------------------
  // The email pattern /^[^\s@]+@[^\s@]+\.[^\s@]+$/

  /** Characters of the class `[^\s@]` */
  predicate EmailChars(s: string) {
    forall i :: 0 <= i < |s| ==> !IsSpace(s[i]) && s[i] != '@'
  }

  /** The pattern read as a decomposition: local "@" host "." suffix, all three non-empty */
  ghost predicate MatchesEmailPattern(s: string) {
    exists local: string, host: string, suffix: string ::
      && s == local + "@" + host + "." + suffix
      && local != [] && host != [] && suffix != []
      && EmailChars(local) && EmailChars(host) && EmailChars(suffix)
  }

  /** Exactly one '@', a non-empty whitespace-free local part, and a whitespace-free
      domain with a '.' that is neither its first nor its last character */
  predicate ValidEmail(s: string): (r: bool)
    ensures r ==> '@' in s && |s| >= 5
  {
    var parts := Split(s, '@');
    JoinSplit(s, '@');
    && |parts| == 2
    && parts[0] != [] && NoSpace(parts[0])
    && NoSpace(parts[1]) && |parts[1]| >= 3
    && '.' in parts[1][1..|parts[1]| - 1]
  }

  lemma ValidEmailIsPattern(s: string)
    ensures ValidEmail(s) <==> MatchesEmailPattern(s)
  {
    if ValidEmail(s) {
      ValidEmailDecomposes(s);
    }
    if MatchesEmailPattern(s) {
      var local: string, host: string, suffix: string :|
        && s == local + "@" + host + "." + suffix
        && local != [] && host != [] && suffix != []
        && EmailChars(local) && EmailChars(host) && EmailChars(suffix);
      PatternIsValidEmail(local, host, suffix);
    }
  }

  lemma ValidEmailDecomposes(s: string)
    requires ValidEmail(s)
    ensures MatchesEmailPattern(s)
  {
    var parts := Split(s, '@');
    var local, domain := parts[0], parts[1];
    JoinSplit(s, '@');
    assert Join(parts, '@') == local + ['@'] + Join(parts[1..], '@');
    assert parts[1..] == [domain];
    assert s == local + "@" + domain;
    var inner := domain[1..|domain| - 1];
    var k :| 0 <= k < |inner| && inner[k] == '.';
    var j := k + 1;
    var host, suffix := domain[..j], domain[j + 1..];
    assert domain[j] == '.';
    assert domain == host + "." + suffix;
    assert s == local + "@" + host + "." + suffix;
    assert EmailChars(local);
    assert EmailChars(host) by {
      forall i | 0 <= i < |host| ensures !IsSpace(host[i]) && host[i] != '@' {
        assert host[i] == domain[i];
      }
    }
    assert EmailChars(suffix) by {
      forall i | 0 <= i < |suffix| ensures !IsSpace(suffix[i]) && suffix[i] != '@' {
        assert suffix[i] == domain[j + 1 + i];
      }
    }
  }

  lemma PatternIsValidEmail(local: string, host: string, suffix: string)
    requires local != [] && host != [] && suffix != []
    requires EmailChars(local) && EmailChars(host) && EmailChars(suffix)
    ensures ValidEmail(local + "@" + host + "." + suffix)
  {
    var s := local + "@" + host + "." + suffix;
    var domain := host + "." + suffix;
    assert EmailChars(domain) by {
      forall i | 0 <= i < |domain| ensures !IsSpace(domain[i]) && domain[i] != '@' {
        if i < |host| { assert domain[i] == host[i]; }
        else if i > |host| { assert domain[i] == suffix[i - |host| - 1]; }
      }
    }
    assert '@' !in domain by {
      forall i | 0 <= i < |domain| ensures domain[i] != '@' { }
    }
    assert '@' !in local by {
      forall i | 0 <= i < |local| ensures local[i] != '@' { }
    }
    assert s == local + ['@'] + domain;
    SplitConcat(local, '@', domain);
    SplitWithoutSep(local, '@');
    SplitWithoutSep(domain, '@');
    assert Split(s, '@') == [local, domain];
    assert domain[1..|domain| - 1][|host| - 1] == '.';
  }
}
