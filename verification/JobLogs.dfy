/** The log of a scheduled job: bounded capture of its output, and removal of secrets
    from what was captured, including one that the bound cut off. */
module JobLogs {
  const LIMIT: nat := 262_144
  const MARKER := "[REDACTED]"

  // ---------- capture ----------

  function Flatten<T>(chunks: seq<seq<T>>): seq<T> {
    if chunks == [] then [] else Flatten(chunks[..|chunks| - 1]) + chunks[|chunks| - 1]
  }

  /** Keeps the first `limit` bytes of the output and says whether there were more. */
  method Capture(chunks: seq<seq<bv8>>, limit: nat) returns (output: seq<bv8>, truncated: bool)
    ensures var all := Flatten(chunks);
            output == (if |all| <= limit then all else all[..limit]) && (truncated <==> |all| > limit)
  {
    output, truncated := [], false;
    for i := 0 to |chunks|
      invariant var all := Flatten(chunks[..i]);
                output == (if |all| <= limit then all else all[..limit]) && (truncated <==> |all| > limit)
    {
      var content := chunks[i];
      assert chunks[..i + 1][..i] == chunks[..i];
      var remaining := limit - |output|;
      output := output + if |content| <= remaining then content else content[..remaining];
      truncated := truncated || |content| > remaining;
    }
    assert chunks[..|chunks|] == chunks;
  }

  // ---------- borders ----------

  /** The first k characters of c[..n] are also its last k, and not all of it. */
  predicate IsBorder(c: string, n: nat, k: nat)
    requires n <= |c|
  {
    k < n && c[..k] == c[n - k..n]
  }

  ghost predicate IsLongestBorder(c: string, n: nat, k: nat)
    requires n <= |c|
  {
    IsBorder(c, n, k) && forall j: nat | IsBorder(c, n, j) :: j <= k
  }

  lemma BorderWithinBorder(c: string, n: nat, k: nat, j: nat)
    requires n <= |c| && IsBorder(c, n, k) && j < k
    ensures IsBorder(c, n, j) <==> IsBorder(c, k, j)
  {
    assert c[n - k..n][k - j..] == c[n - j..n];
    assert c[..k][k - j..] == c[k - j..k];
  }

  lemma BorderGrows(c: string, n: nat, j: nat)
    requires 0 < n < |c|
    ensures IsBorder(c, n + 1, j + 1) <==> IsBorder(c, n, j) && c[j] == c[n]
  {
    if j < n {
      assert c[..j + 1] == c[..j] + [c[j]];
      assert c[n - j..n + 1] == c[n - j..n] + [c[n]];
      if c[..j + 1] == c[n - j..n + 1] {
        assert c[..j] == c[..j + 1][..j] == c[n - j..n + 1][..j] == c[n - j..n];
        assert c[j] == c[..j + 1][j] == c[n - j..n + 1][j] == c[n];
      }
    }
  }

  /** Every border that the next character extends is at most `matched` long. */
  ghost predicate Bounds(c: string, index: nat, matched: nat)
    requires index < |c|
  {
    forall j: nat | IsBorder(c, index, j) && c[j] == c[index] :: j <= matched
  }

  lemma FallBack(c: string, index: nat, matched: nat, next: nat)
    requires 0 < index < |c| && IsBorder(c, index, matched) && Bounds(c, index, matched)
    requires matched > 0 && c[index] != c[matched] && IsLongestBorder(c, matched, next)
    ensures IsBorder(c, index, next) && Bounds(c, index, next)
  {
    BorderWithinBorder(c, index, matched, next);
    forall j: nat | IsBorder(c, index, j) && c[j] == c[index] ensures j <= next {
      assert j != matched;
      BorderWithinBorder(c, index, matched, j);
    }
  }

  lemma NextLongest(c: string, index: nat, matched: nat)
    requires 0 < index < |c| && IsBorder(c, index, matched) && Bounds(c, index, matched)
    requires matched == 0 || c[index] == c[matched]
    ensures IsLongestBorder(c, index + 1, if c[index] == c[matched] then matched + 1 else 0)
  {
    var n, k := index + 1, if c[index] == c[matched] then matched + 1 else 0;
    if k > 0 { BorderGrows(c, index, matched); }
    forall j: nat | IsBorder(c, n, j) ensures j <= k {
      if j > 0 { BorderGrows(c, index, j - 1); }
    }
  }

  /** The prefix table, filled in place: entry i is the longest border of the first i + 1 characters. */
  method PrefixTable(c: string) returns (prefixes: array<nat>)
    requires c != []
    ensures fresh(prefixes) && prefixes.Length == |c|
    ensures forall i | 0 <= i < |c| :: IsLongestBorder(c, i + 1, prefixes[i])
  {
    prefixes := new nat[|c|](_ => 0);
    for index := 1 to |c|
      invariant forall i | 0 <= i < index :: IsLongestBorder(c, i + 1, prefixes[i])
    {
      var matched: nat := prefixes[index - 1];
      assert IsLongestBorder(c, index, matched);
      while matched > 0 && c[index] != c[matched]
        invariant forall i | 0 <= i < index :: IsLongestBorder(c, i + 1, prefixes[i])
        invariant matched < index && IsBorder(c, index, matched) && Bounds(c, index, matched)
      {
        assert IsLongestBorder(c, (matched - 1) + 1, prefixes[matched - 1]);
        FallBack(c, index, matched, prefixes[matched - 1]);
        matched := prefixes[matched - 1];
      }
      NextLongest(c, index, matched);
      if c[index] == c[matched] { matched := matched + 1; }
      prefixes[index] := matched;
    }
  }

  // ---------- a secret cut off at the end ----------

  const NUL := '\U{0000}'

  predicate IsSuffix(w: string, t: string) {
    |w| <= |t| && t[|t| - |w|..] == w
  }

  /** The first k characters of the secret end the text. */
  predicate EndsPartial(secret: string, text: string, k: nat) {
    k <= |secret| && IsSuffix(secret[..k], text)
  }

  ghost predicate IsLongestPartial(secret: string, text: string, k: nat) {
    EndsPartial(secret, text, k) && forall j: nat | EndsPartial(secret, text, j) :: j <= k
  }

  function Tail(text: string, n: nat): string {
    if |text| <= n then text else text[|text| - n..]
  }

  function Candidate(secret: string, text: string): string {
    secret + [NUL] + Tail(text, |secret|)
  }

  /** The separator keeps borders of the candidate within the secret and within the text. */
  lemma BorderIsShort(secret: string, text: string, k: nat)
    requires secret != [] && NUL !in secret
    requires var c := Candidate(secret, text); IsBorder(c, |c|, k)
    ensures k <= |secret| && k <= |Tail(text, |secret|)|
  {
    var c := Candidate(secret, text);
    if |c| - k <= |secret| && k + |secret| >= |c| {
      NulInSecret(secret, text, k);
    }
  }

  /** A border that reached over the separator would put it into the secret. */
  lemma NulInSecret(secret: string, text: string, k: nat)
    requires var c := Candidate(secret, text);
             IsBorder(c, |c|, k) && |c| - k <= |secret| && 0 <= |secret| + k - |c| < |secret|
    ensures NUL in secret
  {
    var c := Candidate(secret, text);
    var i := |secret| + k - |c|;
    assert c[..k][i] == c[|c| - k..][i];
  }

  lemma BorderIsPartial(secret: string, text: string, k: nat)
    requires secret != [] && NUL !in secret
    ensures var c := Candidate(secret, text); IsBorder(c, |c|, k) <==> EndsPartial(secret, text, k)
  {
    var c, t := Candidate(secret, text), Tail(text, |secret|);
    if IsBorder(c, |c|, k) { BorderIsShort(secret, text, k); }
    if k <= |secret| && k <= |t| { EndsOfCandidate(secret, text, k); }
    assert EndsPartial(secret, text, k) ==> k <= |secret| && k <= |text|;
    assert IsBorder(c, |c|, k) <==> k < |c| && c[..k] == c[|c| - k..];
  }

  lemma EndsOfCandidate(secret: string, text: string, k: nat)
    requires k <= |secret| && k <= |Tail(text, |secret|)|
    ensures var c := Candidate(secret, text); k < |c| && c[..k] == secret[..k] && k <= |text| && c[|c| - k..] == text[|text| - k..]
  {
    var c, t := Candidate(secret, text), Tail(text, |secret|);
    assert c[|c| - k..] == t[|t| - k..] == text[|text| - k..];
  }

  /** The longest border of at most k characters. */
  function BorderUpTo(c: string, n: nat, k: nat): (b: nat)
    requires 0 < n <= |c| && k < n
    ensures IsBorder(c, n, b) && b <= k && forall j: nat | b < j <= k :: !IsBorder(c, n, j)
  {
    if IsBorder(c, n, k) then k else BorderUpTo(c, n, k - 1)
  }

  /** How many characters at the end of the text are taken for the beginning of the secret. */
  function CutLength(secret: string, text: string): nat {
    var c := Candidate(secret, text);
    BorderUpTo(c, |c|, |c| - 1)
  }

  method PartialLength(secret: string, text: string) returns (length: nat)
    ensures length == CutLength(secret, text)
  {
    var c := Candidate(secret, text);
    var prefixes := PrefixTable(c);
    length := prefixes[|c| - 1];
    assert IsLongestBorder(c, |c|, length);
  }

  /** It is exactly the longest beginning of the secret that ends the text. */
  lemma CutLengthIsLongestPartial(secret: string, text: string)
    requires secret != [] && NUL !in secret
    ensures IsLongestPartial(secret, text, CutLength(secret, text))
  {
    BorderIsPartial(secret, text, CutLength(secret, text));
    forall j: nat | EndsPartial(secret, text, j) ensures j <= CutLength(secret, text) {
      BorderIsPartial(secret, text, j);
    }
  }
}
