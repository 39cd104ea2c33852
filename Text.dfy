/** Character and string helpers shared by the command policies: ASCII case
    folding, leftmost substring search, first-occurrence replacement and the
    decimal text of a number. */
module Text {
  import opened Wrappers

  /** ASCII upper-case letter. */
  predicate IsUpper(c: char) { 'A' <= c <= 'Z' }

  /** ASCII decimal digit (the `\d` character class, restricted to ASCII). */
  predicate IsDigit(c: char) { '0' <= c <= '9' }

  /** `str.lower()` of one character, restricted to ASCII letters. */
  function LowerChar(c: char): char {
    if IsUpper(c) then (c as int + 32) as char else c
  }

  /** `str.lower()`, restricted to ASCII letters. */
  function Lower(s: string): string {
    seq(|s|, i requires 0 <= i < |s| => LowerChar(s[i]))
  }

  /** `pat` occurs in `s` starting at index `i`. */
  predicate OccursAt(s: string, pat: string, i: nat) {
    i + |pat| <= |s| && s[i..i + |pat|] == pat
  }

  lemma OccursAtHead(s: string, pat: string, i: nat)
    requires OccursAt(s, pat, i) && |pat| > 0
    ensures s[i] == pat[0]
  {
    assert s[i..i + |pat|][0] == s[i];
  }

  /** Leftmost occurrence of `pat` in `s` at or after `from`. */
  function IndexFrom(s: string, pat: string, from: nat): (r: Option<nat>)
    decreases |s| - from
    ensures r.Some? ==> from <= r.value && OccursAt(s, pat, r.value)
    ensures r.Some? ==> forall j :: from <= j < r.value ==> !OccursAt(s, pat, j)
    ensures r.None? ==> forall j :: from <= j ==> !OccursAt(s, pat, j)
  {
    if from + |pat| > |s| then None
    else if s[from..from + |pat|] == pat then Some(from)
    else IndexFrom(s, pat, from + 1)
  }

  /** Leftmost occurrence of `pat` in `s`: what Python's `in` and a
      literal `re.sub(..., count=1)` look for. */
  function Find(s: string, pat: string): (r: Option<nat>)
    ensures r.Some? <==> exists j: nat :: OccursAt(s, pat, j)
    ensures r.Some? ==> OccursAt(s, pat, r.value) && forall j: nat :: j < r.value ==> !OccursAt(s, pat, j)
  {
    IndexFrom(s, pat, 0)
  }

  predicate Contains(s: string, pat: string) {
    Find(s, pat).Some?
  }

  /** `re.sub(pat, rep, s, count=1)` for a pattern made of literal
      characters: the leftmost occurrence is replaced, nothing else. */
  function ReplaceFirst(s: string, pat: string, rep: string): (r: string)
    ensures (forall j: nat :: !OccursAt(s, pat, j)) ==> r == s
    ensures forall p: nat :: OccursAt(s, pat, p) && (forall q: nat :: q < p ==> !OccursAt(s, pat, q)) ==>
      r == s[..p] + rep + s[p + |pat|..]
  {
    match Find(s, pat)
    case None => s
    case Some(i) =>
      s[..i] + rep + s[i + |pat|..]
  }

  /** Replacing the first occurrence of the text of `s[k..m]` happens at the
      leftmost occurrence `p` of that text, which is at or before `k`. */
  lemma ReplaceFirstOfSlice(s: string, k: nat, m: nat, rep: string) returns (p: nat)
    requires k <= m <= |s|
    ensures p <= k && OccursAt(s, s[k..m], p)
    ensures forall q: nat :: q < p ==> !OccursAt(s, s[k..m], q)
    ensures ReplaceFirst(s, s[k..m], rep) == s[..p] + rep + s[p + (m - k)..]
  {
    var pat := s[k..m];
    assert OccursAt(s, pat, k);
    p := Find(s, pat).value;
    assert |pat| == m - k;
    assert ReplaceFirst(s, pat, rep) == s[..p] + rep + s[p + |pat|..];
  }

  predicate AllDigits(s: string) {
    forall i :: 0 <= i < |s| ==> IsDigit(s[i])
  }

  function DigitChar(d: nat): (c: char)
    requires d < 10
    ensures IsDigit(c)
  {
    ('0' as int + d) as char
  }

  /** `int(s)` for a run of ASCII digits (leading zeros allowed). The empty
      run gives 0, where `int("")` would raise; it is never reached from the
      port group, whose digit run is non-empty, only as the base case here. */
  function DigitsValue(s: string): nat
    requires AllDigits(s)
  {
    if s == [] then 0
    else DigitsValue(s[..|s| - 1]) * 10 + (s[|s| - 1] as int - '0' as int)
  }

  /** `str(n)` for a non-negative integer. */
  function Decimal(n: nat): (r: string)
    ensures |r| > 0 && AllDigits(r)
    ensures r[0] == '0' ==> r == "0"
  {
    if n < 10 then [DigitChar(n)] else Decimal(n / 10) + [DigitChar(n % 10)]
  }

  /** `int(str(n)) == n`. */
  lemma {:induction false} DecimalRoundTrip(n: nat)
    ensures DigitsValue(Decimal(n)) == n
  {
    if n >= 10 {
      var s := Decimal(n);
      assert s[..|s| - 1] == Decimal(n / 10);
      DecimalRoundTrip(n / 10);
    }
  }

  /** The leftmost maximal run of characters satisfying `p` that starts at
      `i` ends at the returned index: a greedy `p+` or `p*` scan. */
  function SkipWhile(s: string, i: nat, p: char -> bool): (j: nat)
    requires i <= |s|
    decreases |s| - i
    ensures i <= j <= |s|
    ensures forall x :: i <= x < j ==> p(s[x])
    ensures j == |s| || !p(s[j])
  {
    if i == |s| || !p(s[i]) then i else SkipWhile(s, i + 1, p)
  }

  /** A greedy scan stops exactly at the first character that fails `p`. */
  lemma SkipWhileAt(s: string, i: nat, p: char -> bool, k: nat)
    requires i <= k <= |s|
    requires forall x :: i <= x < k ==> p(s[x])
    requires k == |s| || !p(s[k])
    ensures SkipWhile(s, i, p) == k
  {
  }
}
