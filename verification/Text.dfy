/** The string operations the cache's parsers and printers are written with. */
module Text {
  import opened Wrappers

  const U64_MAX: nat := 0xFFFF_FFFF_FFFF_FFFF

  /** `str::find` for a character: its first occurrence. */
  function Find(s: string, c: char): (i: Option<nat>)
    ensures i.Some? ==> i.value < |s| && s[i.value] == c && c !in s[..i.value]
    ensures i.None? <==> c !in s
  {
    if s == "" then None
    else if s[0] == c then Some(0)
    else
      var rest := Find(s[1..], c);
      if rest.Some? then
        assert s[..rest.value + 1] == [s[0]] + s[1..][..rest.value];
        Some(rest.value + 1)
      else None
  }

  /** `str::rfind` for a character: its last occurrence. */
  function RFind(s: string, c: char): (i: Option<nat>)
    ensures i.Some? ==> i.value < |s| && s[i.value] == c && c !in s[i.value + 1..]
    ensures i.None? <==> c !in s
  {
    if s == "" then None
    else if s[|s| - 1] == c then Some(|s| - 1)
    else
      var rest := RFind(s[..|s| - 1], c);
      if rest.Some? then
        assert s[rest.value + 1..] == s[..|s| - 1][rest.value + 1..] + [s[|s| - 1]];
        rest
      else None
  }

  predicate OccursAt(s: string, pattern: string, i: nat) {
    i + |pattern| <= |s| && s[i..i + |pattern|] == pattern
  }

  /** `str::rfind` for a substring: its last occurrence at or before `from`. */
  function RFindStr(s: string, pattern: string, from: nat): (i: Option<nat>)
    ensures i.Some? ==> i.value <= from && OccursAt(s, pattern, i.value)
    ensures forall j :: 0 <= j <= from && (i.Some? ==> i.value < j) ==> !OccursAt(s, pattern, j)
  {
    if OccursAt(s, pattern, from) then Some(from)
    else if from == 0 then None
    else RFindStr(s, pattern, from - 1)
  }

  /** `str::contains` for a substring. */
  predicate Contains(s: string, pattern: string)
  {
    RFindStr(s, pattern, |s|).Some?
  }

  function StripPrefix(s: string, prefix: string): Option<string> {
    if prefix <= s then Some(s[|prefix|..]) else None
  }

  // `strip_prefix("sha256:").unwrap_or(s)`
  function StripSha(s: string): string {
    if "sha256:" <= s then s[7..] else s
  }

  // The characters Unicode calls white space.
  predicate IsSpace(c: char) {
    || '\t' <= c <= '\r' || c == ' '
    || c == '\U{85}' || c == '\U{A0}' || c == '\U{1680}' || '\U{2000}' <= c <= '\U{200A}'
    || c == '\U{2028}' || c == '\U{2029}' || c == '\U{202F}' || c == '\U{205F}' || c == '\U{3000}'
  }

  function TrimStart(s: string): string {
    if s != "" && IsSpace(s[0]) then TrimStart(s[1..]) else s
  }

  function TrimEnd(s: string): string {
    if s != "" && IsSpace(s[|s| - 1]) then TrimEnd(s[..|s| - 1]) else s
  }

  function Trim(s: string): string {
    TrimEnd(TrimStart(s))
  }

  // `trim_end_matches('/')`
  function TrimSlashes(s: string): string {
    if s != "" && s[|s| - 1] == '/' then TrimSlashes(s[..|s| - 1]) else s
  }

  // `trim_start_matches` for a substring.
  function TrimStartMatches(s: string, prefix: string): string
    requires prefix != ""
    decreases |s|
  {
    if prefix <= s then TrimStartMatches(s[|prefix|..], prefix) else s
  }

  lemma {:induction false} TrimSlashesUndoes(s: string, slashes: nat)
    requires s == "" || s[|s| - 1] != '/'
    ensures TrimSlashes(s + seq(slashes, _ => '/')) == s
  {
    var padded := s + seq(slashes, _ => '/');
    if slashes == 0 {
      assert padded == s;
    } else {
      assert padded[..|padded| - 1] == s + seq(slashes - 1, _ => '/');
      TrimSlashesUndoes(s, slashes - 1);
    }
  }

  lemma FindIsAtMost(s: string, c: char, i: nat)
    requires i < |s| && s[i] == c
    ensures Find(s, c).Some? && Find(s, c).value <= i
  {
    var at := Find(s, c).value;
    assert forall k | 0 <= k < at :: s[k] == s[..at][k];
  }

  lemma RFindIsAtLeast(s: string, c: char, i: nat)
    requires i < |s| && s[i] == c
    ensures RFind(s, c).Some? && i <= RFind(s, c).value
  {
    var at := RFind(s, c).value;
    assert forall k | at < k < |s| :: s[k] == s[at + 1..][k - at - 1];
  }

  lemma OccurrenceSpells(s: string, pattern: string, j: nat, k: nat)
    requires k < |pattern|
    ensures OccursAt(s, pattern, j) ==> s[j + k] == pattern[k]
  {
    if OccursAt(s, pattern, j) {
      assert s[j..j + |pattern|][k] == s[j + k];
    }
  }

  lemma OccursInside(a: string, s: string, b: string, pattern: string, k: nat)
    requires OccursAt(s, pattern, k)
    ensures OccursAt(a + s + b, pattern, |a| + k)
  {
    assert (a + s + b)[|a| + k..|a| + k + |pattern|] == s[k..k + |pattern|];
  }

  /** A pattern that ends in '/' last occurs before a slash-free suffix. */
  lemma LastOccurrence(prefix: string, pattern: string, suffix: string)
    requires pattern != "" && pattern[|pattern| - 1] == '/' && '/' !in suffix
    ensures var s := prefix + pattern + suffix; RFindStr(s, pattern, |s|) == Some(|prefix|)
  {
    var s := prefix + pattern + suffix;
    var n := |pattern| - 1;
    assert OccursAt(s, pattern, |prefix|);
    forall j: nat | |prefix| < j ensures !OccursAt(s, pattern, j) {
      OccurrenceSpells(s, pattern, j, n);
      if j + n < |s| {
        var c := suffix[j - |prefix| - 1];
        assert c in suffix && s[j + n] == c;
      }
    }
  }

  lemma PrefixOfConcat(a: string, b: string, x: string)
    ensures a + b <= a + x <==> b <= x
  {
    assert (a + b)[|a|..] == b && (a + x)[|a|..] == x;
    if a + b <= a + x {
      assert (a + x)[..|a + b|][|a|..] == b;
      assert x[..|b|] == (a + x)[..|a + b|][|a|..];
    }
    if b <= x {
      assert (a + x)[..|a + b|] == a + b;
    }
  }

  lemma Regroup<T>(a: seq<T>, b: seq<T>, c: seq<T>)
    ensures a + (b + c) == a + b + c
  {
  }

  lemma PartsOfConcat(a: string, b: string, c: string, d: string)
    ensures var s := a + b + c + d;
      s[|a|..|a| + |b|] == b && s[|a| + |b| + |c|..] == d
  {
  }

  /** Splitting a joined pair at the separator's first occurrence gives the pair back. */
  lemma Glued(a: string, b: string, c: string, d: string)
    ensures a + b + c + d == a + (b + c + d)
  {
  }

  lemma StripAddedPrefix(prefix: string, rest: string)
    ensures StripPrefix(prefix + rest, prefix) == Some(rest)
  {
  }

  lemma StrippedPrefix(s: string, prefix: string)
    ensures StripPrefix(s, prefix).Some? ==> s == prefix + StripPrefix(s, prefix).value
  {
  }

  lemma FindInJoin(a: string, c: char, b: string)
    requires c !in a
    ensures Find(a + [c] + b, c) == Some(|a|)
    ensures (a + [c] + b)[..|a|] == a && (a + [c] + b)[|a| + 1..] == b
  {
    var s := a + [c] + b;
    assert s[|a|] == c && s[..|a|] == a;
    var i := Find(s, c).value;
    assert i <= |a|;
  }

  /** Splitting a joined pair at the separator's last occurrence gives the pair back. */
  lemma RFindInJoin(a: string, c: char, b: string)
    requires c !in b
    ensures RFind(a + [c] + b, c) == Some(|a|)
    ensures (a + [c] + b)[..|a|] == a && (a + [c] + b)[|a| + 1..] == b
  {
    var s := a + [c] + b;
    assert s[|a|] == c && s[|a| + 1..] == b;
    var i := RFind(s, c).value;
    assert |a| <= i;
  }

  // ----- temp files -----

  // `with_extension("tmp")` of a file name.
  function TempName(name: string): string {
    var dot := RFind(name, '.');
    (if dot.Some? && dot.value > 0 then name[..dot.value] else name) + ".tmp"
  }

  predicate EndsInTmp(name: string) {
    |name| >= 4 && name[|name| - 4..] == ".tmp"
  }

  lemma TempEndsInTmp(name: string)
    ensures EndsInTmp(TempName(name))
  {
    var dot := RFind(name, '.');
    var stem := if dot.Some? && dot.value > 0 then name[..dot.value] else name;
    assert TempName(name)[|stem|..] == ".tmp";
  }

  /** The temp name of a stem is the stem with ".tmp", and putting any extension on the stem changes nothing. */
  lemma TempOfStem(stem: string, extension: string)
    requires stem != "" && '.' !in extension
    ensures TempName(stem + "." + extension) == stem + ".tmp"
    ensures '.' !in stem[1..] ==> TempName(stem) == stem + ".tmp"
  {
    RFindInJoin(stem, '.', extension);
    assert stem + ['.'] + extension == stem + "." + extension;
    assert forall i | 1 <= i < |stem| :: stem[i] == stem[1..][i - 1];
  }

  /** The temp file of a temp file is the temp file itself. */
  lemma TempOfTemp(name: string)
    requires name != ""
    ensures TempName(TempName(name)) == TempName(name)
  {
    var dot := RFind(name, '.');
    var stem := if dot.Some? && dot.value > 0 then name[..dot.value] else name;
    TempOfStem(stem, "tmp");
    assert stem + "." + "tmp" == stem + ".tmp";
  }

  // ----- decimal numbers -----

  function Digit(n: nat): char
    requires n < 10
  {
    "0123456789"[n]
  }

  function DigitValue(c: char): Option<nat> {
    if '0' <= c <= '9' then Some(c as int - '0' as int) else None
  }

  /** How an unsigned number is printed. */
  function Decimal(n: nat): string {
    if n < 10 then [Digit(n)] else Decimal(n / 10) + [Digit(n % 10)]
  }

  function ParseDigits(s: string): Option<nat> {
    if s == "" then None
    else
      var last := DigitValue(s[|s| - 1]);
      if last.None? then None
      else if |s| == 1 then last
      else
        var rest := ParseDigits(s[..|s| - 1]);
        if rest.None? then None else Some(10 * rest.value + last.value)
  }

  /** `parse::<u64>`: digits with an optional plus sign, rejected beyond 64 bits. */
  function ParseU64(s: string): Option<nat> {
    var n := ParseDigits(if "+" <= s then s[1..] else s);
    if n.Some? && n.value <= U64_MAX then n else None
  }

  predicate AllDigits(s: string) {
    s != "" && forall i | 0 <= i < |s| :: '0' <= s[i] <= '9'
  }

  lemma OneMoreDigit(s: string, d: nat)
    requires d < 10
    ensures (s == "" || AllDigits(s)) ==> AllDigits(s + [Digit(d)])
    ensures s == "" ==> ParseDigits(s + [Digit(d)]) == Some(d)
    ensures s != "" && ParseDigits(s).Some? ==> ParseDigits(s + [Digit(d)]) == Some(10 * ParseDigits(s).value + d)
  {
    var t := s + [Digit(d)];
    assert t[..|t| - 1] == s && t[|t| - 1] == Digit(d);
    assert DigitValue(Digit(d)) == Some(d);
  }

  lemma {:induction false} DecimalIsDigits(n: nat)
    ensures AllDigits(Decimal(n)) && ParseDigits(Decimal(n)) == Some(n)
  {
    if n < 10 {
      OneMoreDigit("", n);
      assert "" + [Digit(n)] == Decimal(n);
    } else {
      DecimalIsDigits(n / 10);
      OneMoreDigit(Decimal(n / 10), n % 10);
    }
  }

  /** Only digits, with or without a plus sign, are read as a number. */
  lemma {:induction false} ParsedIsDigits(s: string)
    ensures ParseDigits(s).Some? <==> AllDigits(s)
  {
    if |s| > 1 {
      ParsedIsDigits(s[..|s| - 1]);
      assert forall i | 0 <= i < |s| - 1 :: s[..|s| - 1][i] == s[i];
    }
  }

  /** Printing and parsing a 64-bit number are inverse. */
  lemma ParseOfDecimal(n: nat)
    requires n <= U64_MAX
    ensures ParseU64(Decimal(n)) == Some(n)
  {
    DecimalIsDigits(n);
    assert Decimal(n)[0] != '+';
  }
}
