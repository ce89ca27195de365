/**
 Text as the daemon handles it. A string is the sequence of its UTF-8 code units, one `char` per byte,
 so `|s|` is `str::len`; every separator and digit used by the daemon is a single ASCII unit.
 */
module Text {
  import opened Wrappers

  // ------------------------------------------------------------ decimal numbers

  function Digit(n: nat): char
    requires n < 10
  {
    '0' + n as char
  }

  predicate IsDigit(c: char) { '0' <= c <= '9' }

  function DigitValue(c: char): nat
    requires IsDigit(c)
  {
    (c - '0') as nat
  }

  predicate AllDigits(s: string) {
    forall i :: 0 <= i < |s| ==> IsDigit(s[i])
  }

  /** `{}` formatting of an unsigned integer. */
  function Show(n: nat): (s: string)
    ensures s != "" && AllDigits(s)
  {
    if n < 10 then [Digit(n)] else Show(n / 10) + [Digit(n % 10)]
  }

  function Value(s: string): nat
    requires AllDigits(s)
  {
    if s == "" then 0 else Value(s[..|s| - 1]) * 10 + DigitValue(s[|s| - 1])
  }

  /** `str::parse` for an unsigned type with the given maximum: one leading `+` is allowed. */
  function Parse(s: string, max: nat): Option<nat> {
    var digits := if s != "" && s[0] == '+' then s[1..] else s;
    if digits == "" || !AllDigits(digits) || Value(digits) > max then None else Some(Value(digits))
  }

  lemma {:induction false} ValueOfShow(n: nat)
    ensures Value(Show(n)) == n
  {
    if n >= 10 {
      ValueOfShow(n / 10);
      var s := Show(n);
      assert s[..|s| - 1] == Show(n / 10);
      assert DigitValue(Digit(n % 10)) == n % 10;
    }
  }

  /** A number is read back exactly when it fits the type. */
  lemma ParseOfShow(n: nat, max: nat)
    ensures Parse(Show(n), max) == if n <= max then Some(n) else None
  {
    ValueOfShow(n);
    assert IsDigit(Show(n)[0]);
  }

  function Pow10(k: nat): nat {
    if k == 0 then 1 else 10 * Pow10(k - 1)
  }

  /** A number below ten to the `k` has at most `k` digits. */
  lemma {:induction false} ShowLength(n: nat, k: nat)
    requires 0 < k && n < Pow10(k)
    ensures |Show(n)| <= k
  {
    if n >= 10 {
      assert Pow10(k) == 10 * Pow10(k - 1);
      assert k > 1;
      ShowLength(n / 10, k - 1);
    }
  }

  /** A text is read as a number only if it consists of digits, after at most one `+`, and the number fits. */
  lemma ParseRefuses(s: string, max: nat)
    ensures s == "" || s == "+" ==> Parse(s, max) == None
    ensures (exists i :: 0 < i < |s| && !('0' <= s[i] <= '9')) ==> Parse(s, max) == None
    ensures s != "" && s[0] != '+' && !('0' <= s[0] <= '9') ==> Parse(s, max) == None
    ensures Parse(s, max).Some? ==> Parse(s, max).value <= max
  {
    var digits := if s != "" && s[0] == '+' then s[1..] else s;
    if i :| 0 < i < |s| && !('0' <= s[i] <= '9') {
      assert digits[if s[0] == '+' then i - 1 else i] == s[i];
    }
    hide Value;
  }

  // ------------------------------------------------------------ substrings

  predicate OccursAt(s: string, needle: string, i: int) {
    0 <= i <= |s| - |needle| && s[i..i + |needle|] == needle
  }

  /** `str::contains`. */
  predicate Contains(s: string, needle: string) {
    exists i :: 0 <= i <= |s| && OccursAt(s, needle, i)
  }

  lemma ContainsMiddle(a: string, needle: string, b: string)
    ensures Contains(a + needle + b, needle)
  {
    var s := a + needle + b;
    assert OccursAt(s, needle, |a|);
  }

  lemma ContainsTrans(s: string, t: string, needle: string)
    requires Contains(s, t) && Contains(t, needle)
    ensures Contains(s, needle)
  {
    var i :| 0 <= i <= |s| && OccursAt(s, t, i);
    var j :| 0 <= j <= |t| && OccursAt(t, needle, j);
    forall k | 0 <= k < |needle| ensures s[i + j..i + j + |needle|][k] == needle[k] {
      assert s[i..i + |t|][j + k] == t[j + k] && t[j..j + |needle|][k] == t[j + k];
    }
    assert OccursAt(s, needle, i + j);
  }

  lemma ContainsEither(a: string, b: string, needle: string)
    requires Contains(a, needle) || Contains(b, needle)
    ensures Contains(a + b, needle)
  {
    ContainsMiddle([], a, b);
    ContainsMiddle(a, b, []);
    assert [] + a + b == a + b && a + b + [] == a + b;
    if Contains(a, needle) {
      ContainsTrans(a + b, a, needle);
    } else {
      ContainsTrans(a + b, b, needle);
    }
  }

  // ------------------------------------------------------------ splitting and joining

  /** `str::split` on one character: always at least one part. */
  function Split(s: string, sep: char): (r: seq<string>)
    ensures r != []
    ensures forall p :: p in r ==> sep !in p
  {
    if s == "" then [""]
    else
      var rest := Split(s[1..], sep);
      if s[0] == sep then [""] + rest else [[s[0]] + rest[0]] + rest[1..]
  }

  /** `join` with a one-character separator. */
  function Join(parts: seq<string>, sep: char): string {
    if parts == [] then ""
    else if |parts| == 1 then parts[0]
    else parts[0] + [sep] + Join(parts[1..], sep)
  }

  lemma {:induction false} SplitNone(s: string, sep: char)
    requires sep !in s
    ensures Split(s, sep) == [s]
  {
    if s != "" {
      SplitNone(s[1..], sep);
      assert [s[0]] + s[1..] == s;
    }
  }

  lemma {:induction false} SplitFirst(a: string, b: string, sep: char)
    requires sep !in a
    ensures Split(a + [sep] + b, sep) == [a] + Split(b, sep)
  {
    var s := a + [sep] + b;
    if a == "" {
      assert s[1..] == b;
    } else {
      assert s[1..] == a[1..] + [sep] + b;
      SplitFirst(a[1..], b, sep);
      assert [a[0]] + a[1..] == a;
    }
  }

  lemma {:induction false} SplitOfJoin(parts: seq<string>, sep: char)
    requires parts != [] && forall p :: p in parts ==> sep !in p
    ensures Split(Join(parts, sep), sep) == parts
  {
    if |parts| == 1 {
      SplitNone(parts[0], sep);
    } else {
      SplitOfJoin(parts[1..], sep);
      SplitFirst(parts[0], Join(parts[1..], sep), sep);
    }
  }

  /** `splitn`: at most `n` parts, the last one unsplit. */
  function SplitN(s: string, n: nat, sep: char): seq<string>
    requires n > 0
  {
    if n == 1 || sep !in s then [s]
    else
      var i := IndexOf(s, sep);
      [s[..i]] + SplitN(s[i + 1..], n - 1, sep)
  }

  function IndexOf(s: string, c: char): (i: nat)
    requires c in s
    ensures i < |s| && s[i] == c && c !in s[..i]
  {
    if s[0] == c then 0 else 1 + IndexOf(s[1..], c)
  }

  lemma {:induction false} IndexAfter(a: string, c: char, b: string)
    requires c !in a
    ensures IndexOf(a + [c] + b, c) == |a|
  {
    var s := a + [c] + b;
    if a != "" {
      assert s[1..] == a[1..] + [c] + b;
      IndexAfter(a[1..], c, b);
    }
  }

  lemma SplitNFirst(a: string, b: string, n: nat, sep: char)
    requires n > 1 && sep !in a
    ensures SplitN(a + [sep] + b, n, sep) == [a] + SplitN(b, n - 1, sep)
  {
    var s := a + [sep] + b;
    IndexAfter(a, sep, b);
    assert s[..|a|] == a && s[|a| + 1..] == b;
  }

  // ------------------------------------------------------------ trimming

  predicate IsEol(c: char) { c == '\r' || c == '\n' }

  /** `trim_end_matches(['\r', '\n'])`. */
  function TrimEol(s: string): string {
    if s != "" && IsEol(s[|s| - 1]) then TrimEol(s[..|s| - 1]) else s
  }

  /** Carriage returns and line feeds go from the end, one by one; any other last letter stays. */
  lemma EolInWords(s: string)
    ensures TrimEol(s + "\r") == TrimEol(s) && TrimEol(s + "\n") == TrimEol(s) && TrimEol("") == ""
    ensures s != "" && s[|s| - 1] != '\r' && s[|s| - 1] != '\n' ==> TrimEol(s) == s
  {
    assert (s + "\r")[..|s|] == s && (s + "\n")[..|s|] == s;
  }

  predicate IsSpace(c: char) {
    c == ' ' || '\t' <= c <= '\r'
  }

  function TrimEnd(s: string): string {
    if s != "" && IsSpace(s[|s| - 1]) then TrimEnd(s[..|s| - 1]) else s
  }

  function TrimStart(s: string): string {
    if s != "" && IsSpace(s[0]) then TrimStart(s[1..]) else s
  }

  /** `str::trim` on ASCII whitespace. */
  function Trim(s: string): string {
    TrimStart(TrimEnd(s))
  }
}
