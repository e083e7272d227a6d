/** Choosing a username for an account that an external sign-in creates. */
module OidcUsername {
  import opened Common

  const LONGEST: nat := 50

  // ---- Text ----

  function Digit(d: nat): char
    requires d < 10
  {
    "0123456789"[d]
  }

  function Decimal(n: nat): (s: string)
    ensures s != []
  {
    if n < 10 then [Digit(n)] else Decimal(n / 10) + [Digit(n % 10)]
  }

  /** `text[:end]`, where a negative `end` counts from the back. */
  function Take(text: string, end: int): string {
    if end >= 0 then (if end <= |text| then text[..end] else text)
    else if |text| + end >= 0 then text[..|text| + end] else ""
  }

  predicate Kept(c: char) {
    'a' <= c <= 'z' || '0' <= c <= '9' || c == '_' || c == '.' || c == '-'
  }

  predicate Edge(c: char) { c == '-' || c == '.' || c == '_' }

  function Substitute(text: string): (r: string)
    ensures |r| == |text| && forall i :: 0 <= i < |r| ==> Kept(r[i])
  {
    seq(|text|, i requires 0 <= i < |text| => if Kept(text[i]) then text[i] else '-')
  }

  function StripLeft(text: string): (r: string)
    ensures forall i :: 0 <= i < |r| ==> r[i] in text
    ensures r != [] ==> !Edge(r[0])
  {
    if text != [] && Edge(text[0]) then StripLeft(text[1..]) else text
  }

  function StripRight(text: string): (r: string)
    ensures forall i :: 0 <= i < |r| ==> r[i] in text
    ensures r != [] ==> text != [] && r[0] == text[0]
  {
    if text != [] && Edge(text[|text| - 1]) then StripRight(text[..|text| - 1]) else text
  }

  /** The readable part: the local part of the address, cleaned, at most 30 characters, never empty. */
  function LocalPart(local: string): string {
    var cleaned := Take(StripRight(StripLeft(Substitute(local))), 30);
    if cleaned == "" then "oidc-user" else cleaned
  }

  /** `digest` is the first 12 hexadecimal digits of the hash of issuer and subject. */
  predicate IsDigest(digest: string) {
    |digest| == 12 && forall i :: 0 <= i < 12 ==> '0' <= digest[i] <= '9' || 'a' <= digest[i] <= 'f'
  }

  function BaseName(local: string, digest: string): string {
    Take(LocalPart(local) + "-" + digest, LONGEST)
  }

  function Suffix(k: nat): string { "-" + Decimal(k) }

  /** The base name, and then the base name cut short and numbered. */
  function Candidate(base: string, k: nat): string {
    if k == 0 then base else Take(base, LONGEST - |Suffix(k)|) + Suffix(k)
  }

  /** A name of safe characters; short and led by a letter or digit unless there are absurdly many users. */
  predicate Presentable(taken: set<string>, name: string) {
    && (forall i :: 0 <= i < |name| ==> Kept(name[i]))
    && (|taken| < Pow10(49) ==> |name| <= LONGEST)
    && (|taken| < Pow10(48) ==> name != "" && !Edge(name[0]))
  }

  ghost predicate AllTaken(taken: set<string>, base: string, n: nat) {
    forall j: nat :: j < n ==> Candidate(base, j) in taken
  }

  /** The first candidate that is free is taken, and all before it are in use. */
  ghost predicate IsFirstFree(taken: set<string>, base: string, k: nat, name: string) {
    name == Candidate(base, k) && name !in taken && AllTaken(taken, base, k)
  }

  /** The number the search ends with. */
  ghost function FreeNumber(taken: set<string>, base: string, k: nat): (n: nat)
    requires |base| < LONGEST && AllTaken(taken, base, k)
    ensures k <= n <= |taken| && IsFirstFree(taken, base, n, Candidate(base, n))
    decreases |taken| + 1 - k
  {
    TriedFit(taken, base, k);
    if Candidate(base, k) !in taken then k
    else
      TriedFit(taken, base, k + 1);
      FreeNumber(taken, base, k + 1)
  }

  ghost function FreeName(taken: set<string>, local: string, digest: string): (name: string)
    requires IsDigest(digest)
    ensures name !in taken && Presentable(taken, name)
  {
    BaseIsShort(local, digest);
    var base := BaseName(local, digest);
    var n := FreeNumber(taken, base, 0);
    CandidatePresentable(taken, base, n);
    Candidate(base, n)
  }

  lemma TakenStep(taken: set<string>, base: string, k: nat)
    requires |base| < LONGEST && AllTaken(taken, base, k) && Candidate(base, k) in taken
    ensures AllTaken(taken, base, k + 1) && k < |taken|
    ensures FreeNumber(taken, base, k) == FreeNumber(taken, base, k + 1)
  {
    TriedFit(taken, base, k + 1);
  }

  /** The search: try one candidate after another until the name is free. */
  method SearchName(taken: set<string>, base: string) returns (candidate: string)
    requires |base| < LONGEST
    ensures candidate == Candidate(base, FreeNumber(taken, base, 0))
  {
    candidate := base;
    var suffix := 1;
    while candidate in taken
      invariant 1 <= suffix <= |taken| + 1
      invariant candidate == Candidate(base, suffix - 1)
      invariant AllTaken(taken, base, suffix - 1)
      invariant FreeNumber(taken, base, 0) == FreeNumber(taken, base, suffix - 1)
      decreases |taken| + 1 - suffix
    {
      TakenStep(taken, base, suffix - 1);
      var suffixText := "-" + Decimal(suffix);
      candidate := Take(base, LONGEST - |suffixText|) + suffixText;
      suffix := suffix + 1;
    }
  }

  method NewUsername(taken: set<string>, local: string, digest: string) returns (name: string)
    requires IsDigest(digest)
    ensures name == FreeName(taken, local, digest)
    ensures name !in taken && Presentable(taken, name)
    ensures exists k: nat :: k <= |taken| && IsFirstFree(taken, BaseName(local, digest), k, name)
  {
    BaseIsShort(local, digest);
    var base := Take(LocalPart(local) + "-" + digest, LONGEST);
    assert base == BaseName(local, digest);
    ghost var k := FreeNumber(taken, base, 0);
    name := SearchName(taken, base);
    assert IsFirstFree(taken, base, k, name);
  }

  // ---- Decimals ----

  function Pow10(n: nat): nat { if n == 0 then 1 else 10 * Pow10(n - 1) }

  lemma {:induction false} DecimalLength(k: nat, n: nat)
    requires n > 0
    ensures |Decimal(k)| <= n <==> k < Pow10(n)
  {
    if n == 1 {
      assert Pow10(1) == 10;
      assert k >= 10 ==> Decimal(k) == Decimal(k / 10) + [Digit(k % 10)];
    } else {
      assert Pow10(n) == 10 * Pow10(n - 1);
      PowPositive(n - 1);
      if k >= 10 {
        DecimalLength(k / 10, n - 1);
      } else {
        assert Pow10(n) >= 10;
      }
    }
  }

  lemma {:induction false} PowPositive(n: nat)
    ensures Pow10(n) >= 1
  {
    if n > 0 {
      PowPositive(n - 1);
    }
  }

  lemma {:induction false} DecimalDigits(n: nat)
    ensures forall i :: 0 <= i < |Decimal(n)| ==> '0' <= Decimal(n)[i] <= '9'
  {
    if n >= 10 {
      DecimalDigits(n / 10);
    }
  }

  lemma {:induction false} DecimalInjective(m: nat, n: nat)
    requires Decimal(m) == Decimal(n)
    ensures m == n
  {
    var s := Decimal(m);
    if m >= 10 && n >= 10 {
      assert Decimal(m / 10) == s[..|s| - 1] == Decimal(n / 10);
      assert Digit(m % 10) == s[|s| - 1] == Digit(n % 10);
      DecimalInjective(m / 10, n / 10);
    }
  }

  // ---- Candidates ----

  lemma BaseIsShort(local: string, digest: string)
    requires IsDigest(digest)
    ensures 1 <= |BaseName(local, digest)| <= 43
    ensures forall i :: 0 <= i < |BaseName(local, digest)| ==> Kept(BaseName(local, digest)[i])
    ensures !Edge(BaseName(local, digest)[0])
  {
    LocalText(local);
    assert BaseName(local, digest) == LocalPart(local) + "-" + digest;
  }

  lemma LocalText(local: string)
    ensures 1 <= |LocalPart(local)| <= 30
    ensures forall i :: 0 <= i < |LocalPart(local)| ==> Kept(LocalPart(local)[i])
    ensures !Edge(LocalPart(local)[0])
  {
    var substituted := Substitute(local);
    var left := StripLeft(substituted);
    var stripped := StripRight(left);
    forall i | 0 <= i < |stripped| ensures Kept(stripped[i]) {
      assert stripped[i] in left;
      assert forall j :: 0 <= j < |left| ==> left[j] in substituted;
    }
  }

  lemma LastHyphen(p: string, k: nat)
    ensures var name := p + Suffix(k);
            && name[|p|] == '-'
            && name[|p| + 1..] == Decimal(k)
            && forall i :: |p| < i < |name| ==> name[i] != '-'
  {
    DecimalDigits(k);
  }

  /** Numbered names end in a hyphen and digits, so the number can be read back. */
  lemma SameNumber(p: string, q: string, m: nat, n: nat)
    requires p + Suffix(m) == q + Suffix(n)
    ensures m == n
  {
    LastHyphen(p, m);
    LastHyphen(q, n);
    assert |p| == |q|;
    DecimalInjective(m, n);
  }

  /** Different suffixes give different names, also against the bare base name. */
  lemma CandidateInjective(base: string, m: nat, n: nat)
    requires |base| < LONGEST && m < n
    ensures Candidate(base, m) != Candidate(base, n)
  {
    if m == 0 {
      assert |Candidate(base, n)| > |base|;
    } else if Candidate(base, m) == Candidate(base, n) {
      SameNumber(Take(base, LONGEST - |Suffix(m)|), Take(base, LONGEST - |Suffix(n)|), m, n);
    }
  }

  /** Pigeonhole: at most as many candidates as there are users can be in use. */
  lemma TriedFit(taken: set<string>, base: string, tried: nat)
    requires |base| < LONGEST
    requires AllTaken(taken, base, tried)
    ensures tried <= |taken|
  {
    var names := seq(tried, (k: nat) => Candidate(base, k));
    forall i, j | 0 <= i < j < tried ensures names[i] != names[j] {
      CandidateInjective(base, i, j);
    }
    DistinctFits(names, taken);
  }

  lemma CandidateKept(base: string, k: nat)
    requires forall i :: 0 <= i < |base| ==> Kept(base[i])
    ensures forall i :: 0 <= i < |Candidate(base, k)| ==> Kept(Candidate(base, k)[i])
  {
    DecimalDigits(k);
  }

  lemma CandidateLead(base: string, k: nat)
    requires 1 <= |base| < LONGEST && !Edge(base[0]) && k < Pow10(48)
    ensures Candidate(base, k) != "" && !Edge(Candidate(base, k)[0])
  {
    DecimalLength(k, 48);
  }

  lemma CandidatePresentable(taken: set<string>, base: string, k: nat)
    requires 1 <= |base| < LONGEST && !Edge(base[0]) && k <= |taken|
    requires forall i :: 0 <= i < |base| ==> Kept(base[i])
    ensures Presentable(taken, Candidate(base, k))
  {
    CandidateKept(base, k);
    LengthExactly(base, k);
    if |taken| < Pow10(48) {
      CandidateLead(base, k);
    }
  }

  /** A numbered name fits the column exactly while the number has at most 49 digits. */
  lemma LengthExactly(base: string, k: nat)
    requires |base| < LONGEST
    ensures |Candidate(base, k)| <= LONGEST <==> k < Pow10(49)
  {
    PowPositive(49);
    DecimalLength(k, 49);
  }
}
