/** Redaction of the captured log: first the secret cut off at its end, then every whole one. */
module JobRedaction {
  import opened StableSort
  import opened JobLogs

  // ---------- searching and replacing ----------

  predicate OccursAt(w: string, t: string, i: nat) {
    i + |w| <= |t| && t[i..i + |w|] == w
  }

  predicate Contains(t: string, w: string) {
    exists i: nat | i <= |t| :: OccursAt(w, t, i)
  }

  /** The first occurrence of w at or after i, or -1. */
  function Find(t: string, w: string, i: nat): (p: int)
    requires i <= |t|
    ensures p == -1 || (i <= p <= |t| && OccursAt(w, t, p))
    ensures forall j: nat | i <= j <= |t| && OccursAt(w, t, j) :: 0 <= p <= j
    decreases |t| - i
  {
    if OccursAt(w, t, i) then i else if i == |t| then -1 else Find(t, w, i + 1)
  }

  /** Replacement of all occurrences from left to right, as the library does it. */
  function Replace(t: string, w: string, m: string): string
    requires w != []
    decreases |t|
  {
    var p := Find(t, w, 0);
    if p < 0 then t else t[..p] + m + Replace(t[p + |w|..], w, m)
  }

  /** The text is its pieces joined by w; the pieces do not contain w. */
  function Join(pieces: seq<string>, w: string): string {
    if pieces == [] then "" else if |pieces| == 1 then pieces[0] else pieces[0] + w + Join(pieces[1..], w)
  }

  function Pieces(t: string, w: string): (ps: seq<string>)
    requires w != []
    ensures ps != []
    decreases |t|
  {
    var p := Find(t, w, 0);
    if p < 0 then [t] else [t[..p]] + Pieces(t[p + |w|..], w)
  }

  lemma BeforeFirst(t: string, w: string)
    requires w != []
    ensures var p := Find(t, w, 0); !Contains(if p < 0 then t else t[..p], w)
  {
    var p := Find(t, w, 0);
    if p >= 0 {
      forall i: nat | i <= p ensures !OccursAt(w, t[..p], i) {
        if OccursAt(w, t[..p], i) { OccursInSlice(t, p, w, i); }
      }
    }
  }

  lemma {:induction false} PiecesJoin(t: string, w: string, m: string)
    requires w != []
    ensures Join(Pieces(t, w), m) == Replace(t, w, m)
    decreases |t|
  {
    var p := Find(t, w, 0);
    if p >= 0 {
      PiecesJoin(t[p + |w|..], w, m);
      assert Pieces(t, w)[1..] == Pieces(t[p + |w|..], w);
    }
  }

  lemma {:induction false} ReplaceByItself(t: string, w: string)
    requires w != []
    ensures Replace(t, w, w) == t
    decreases |t|
  {
    var p := Find(t, w, 0);
    if p >= 0 {
      var rest := t[p + |w|..];
      ReplaceByItself(rest, w);
      assert t == t[..p] + w + rest;
    }
  }

  lemma {:induction false} PiecesAreClean(t: string, w: string)
    requires w != []
    ensures forall piece | piece in Pieces(t, w) :: !Contains(piece, w)
    decreases |t|
  {
    BeforeFirst(t, w);
    var p := Find(t, w, 0);
    if p >= 0 { PiecesAreClean(t[p + |w|..], w); }
  }

  /** Replacement changes the occurrences and nothing else. */
  lemma ReplaceKeepsTheRest(t: string, w: string, m: string)
    requires w != []
    ensures Join(Pieces(t, w), w) == t && Join(Pieces(t, w), m) == Replace(t, w, m)
    ensures forall piece | piece in Pieces(t, w) :: !Contains(piece, w)
  {
    PiecesJoin(t, w, w);
    ReplaceByItself(t, w);
    PiecesJoin(t, w, m);
    PiecesAreClean(t, w);
  }

  /** Laid over each other at offset d, the two words agree wherever both have a character. */
  predicate Agree(w: string, m: string, d: int) {
    forall x: nat | x < |m| && 0 <= x - d < |w| :: w[x - d] == m[x]
  }

  /** The words can overlap in a text: one within the other, or an end of one beginning the other. */
  predicate Overlaps(w: string, m: string) {
    exists d | -|w| < d < |m| :: Agree(w, m, d)
  }

  /** Around a marker, a word that cannot overlap it lies on one side. */
  lemma OneSideOfMarker(a: string, m: string, b: string, w: string, i: nat)
    requires m != [] && w != [] && !Overlaps(w, m) && OccursAt(w, (a + m) + b, i)
    ensures OccursAt(w, a, i) || (i >= |a| + |m| && OccursAt(w, b, i - |a| - |m|))
  {
    var r := (a + m) + b;
    if i + |w| <= |a| {
      assert r[i..i + |w|] == a[i..i + |w|];
    } else if i >= |a| + |m| {
      var k := i - |a| - |m|;
      assert r[i..i + |w|] == b[k..k + |w|];
    } else {
      assert OccursAt(m, r, |a|);
      MarkerInWord(r, w, i, m, |a|);
    }
  }

  lemma OccursInRest(t: string, w: string, p: nat, k: nat)
    requires p <= |t| && OccursAt(w, t[p..], k)
    ensures OccursAt(w, t, p + k)
  {
  }

  /** Words without marker characters found after a replacement were there before. */
  lemma {:induction false} WordsAreOld(t: string, s: string, m: string, w: string, i: nat) returns (j: nat)
    requires s != [] && m != [] && w != [] && !Overlaps(w, m) && OccursAt(w, Replace(t, s, m), i)
    ensures j <= |t| && OccursAt(w, t, j)
    decreases |t|
  {
    var p := Find(t, s, 0);
    if p < 0 { return i; }
    var rest := t[p + |s|..];
    OneSideOfMarker(t[..p], m, Replace(rest, s, m), w, i);
    if OccursAt(w, t[..p], i) {
      j := i;
    } else {
      j := WordsAreOld(rest, s, m, w, i - p - |m|);
      OccursInRest(t, w, p + |s|, j);
      j := p + |s| + j;
    }
  }

  lemma MarkerInWord(r: string, w: string, i: nat, m: string, p: nat)
    requires OccursAt(w, r, i) && OccursAt(m, r, p) && i < p + |m| && p < i + |w|
    ensures Overlaps(w, m)
  {
    var d := i - p;
    forall x: nat | x < |m| && 0 <= x - d < |w| ensures w[x - d] == m[x] {
      assert r[i..i + |w|][x - d] == r[p + x] == r[p..p + |m|][x];
    }
    assert Agree(w, m, d);
  }

  lemma SuffixOfRest(a: string, b: string, w: string)
    requires |w| <= |b|
    ensures IsSuffix(w, a + b) <==> IsSuffix(w, b)
  {
    assert (a + b)[|a + b| - |w|..] == b[|b| - |w|..];
  }

  /** Nor does a replacement make the text end in the beginning of a word that cannot overlap the marker. */
  lemma {:induction false} EndingsAreOld(t: string, s: string, m: string, w: string, k: nat)
    requires s != [] && m != [] && 0 < k && !Overlaps(w, m) && EndsPartial(w, Replace(t, s, m), k)
    ensures EndsPartial(w, t, k)
    decreases |t|
  {
    var p := Find(t, s, 0);
    if p >= 0 {
      var rest := t[p + |s|..];
      var r' := Replace(rest, s, m);
      assert Replace(t, s, m) == (t[..p] + m) + r';
      if k <= |r'| {
        SuffixOfRest(t[..p] + m, r', w[..k]);
        EndingsAreOld(rest, s, m, w, k);
        SuffixOfRest(t[..p + |s|], rest, w[..k]);
        assert t == t[..p + |s|] + rest;
      } else {
        MarkerAtEnd(t[..p], m, r', w, k);
      }
    }
  }

  lemma MarkerAtEnd(a: string, m: string, b: string, w: string, k: nat)
    requires m != [] && k > |b| && EndsPartial(w, (a + m) + b, k)
    ensures Overlaps(w, m)
  {
    var r := (a + m) + b;
    var d := |r| - k - |a|;
    forall x: nat | x < |m| && 0 <= x - d < |w| ensures w[x - d] == m[x] {
      assert w[..k][x - d] == r[|r| - k..][x - d] == r[|a| + x] == m[x];
    }
    assert Agree(w, m, d);
  }

  // ---------- redaction ----------

  /** Nonempty, without NUL, and unable to overlap the marker. */
  predicate Ordinary(secret: string) {
    secret != [] && NUL !in secret && !Overlaps(secret, MARKER)
  }

  /** The text does not end in the beginning of the secret. */
  ghost predicate NoPartial(secret: string, text: string) {
    forall k: nat | EndsPartial(secret, text, k) :: k == 0
  }

  function Nonempty(values: seq<string>): seq<string> {
    if values == [] then [] else (if values[0] != [] then [values[0]] else []) + Nonempty(values[1..])
  }

  lemma {:induction false} NonemptyMembers(values: seq<string>)
    ensures forall s :: s in Nonempty(values) <==> s in values && s != []
  {
    if values != [] {
      NonemptyMembers(values[1..]);
      assert values == [values[0]] + values[1..];
    }
  }

  lemma PartialOverlapsMarker(secret: string, text: string, k: nat)
    requires 0 < k && EndsPartial(secret, text, k) && IsSuffix(MARKER, text)
    ensures Overlaps(secret, MARKER)
  {
    var a := text[..|text| - |MARKER|];
    assert text == (a + MARKER) + "";
    MarkerAtEnd(a, MARKER, "", secret, k);
  }

  /** After a partial secret is cut, the text ends in the marker, which no secret begins with. */
  lemma CutLeavesNoPartial(secret: string, text: string)
    requires Ordinary(secret) && IsSuffix(MARKER, text)
    ensures NoPartial(secret, text)
  {
    forall k: nat | EndsPartial(secret, text, k) ensures k == 0 {
      if k > 0 { PartialOverlapsMarker(secret, text, k); }
    }
  }

  function WithoutEnd(text: string, n: nat): string {
    if n <= |text| then text[..|text| - n] else ""
  }

  function CutBy(text: string, n: nat): string {
    if n == 0 then text else WithoutEnd(text, n) + MARKER
  }

  function PartialCut(secret: string, text: string): string {
    CutBy(text, CutLength(secret, text))
  }

  /** The partial occurrences at the end, cut for one secret after the other. */
  function PartialsCut(secrets: seq<string>, text: string): string {
    if secrets == [] then text
    else PartialCut(secrets[|secrets| - 1], PartialsCut(secrets[..|secrets| - 1], text))
  }

  function SecretsReplaced(secrets: seq<string>, text: string): string
    requires forall j | 0 <= j < |secrets| :: secrets[j] != []
  {
    if secrets == [] then text
    else Replace(SecretsReplaced(secrets[..|secrets| - 1], text), secrets[|secrets| - 1], MARKER)
  }

  function Longest(s: string): int { -|s| }

  function Secrets(values: seq<string>): (secrets: seq<string>)
    ensures forall s :: s in secrets <==> s in values && s != []
    ensures forall j | 0 <= j < |secrets| :: secrets[j] != []
  {
    NonemptyMembers(values);
    SortKeepsMembers(Nonempty(values), Longest);
    var secrets := SortBy(Nonempty(values), Longest);
    assert forall j | 0 <= j < |secrets| :: secrets[j] in secrets;
    secrets
  }

  /** The whole redaction, before the final bound on its length. */
  function Redacted(values: seq<string>, text: string, truncated: bool): string {
    SecretsReplaced(Secrets(values), if truncated then PartialsCut(Secrets(values), text) else text)
  }

  method CutPartials(secrets: seq<string>, text: string) returns (cut: string)
    ensures cut == PartialsCut(secrets, text)
  {
    cut := text;
    for i := 0 to |secrets|
      invariant cut == PartialsCut(secrets[..i], text)
    {
      assert secrets[..i + 1][..i] == secrets[..i];
      var length := PartialLength(secrets[i], cut);
      if length > 0 { cut := WithoutEnd(cut, length) + MARKER; }
    }
    assert secrets[..|secrets|] == secrets;
  }

  method ReplaceAll(secrets: seq<string>, text: string) returns (redacted: string)
    requires forall j | 0 <= j < |secrets| :: secrets[j] != []
    ensures redacted == SecretsReplaced(secrets, text)
  {
    redacted := text;
    for i := 0 to |secrets|
      invariant redacted == SecretsReplaced(secrets[..i], text)
    {
      assert secrets[..i + 1][..i] == secrets[..i];
      redacted := Replace(redacted, secrets[i], MARKER);
    }
    assert secrets[..|secrets|] == secrets;
  }

  method Redact(values: seq<string>, text: string, truncated: bool) returns (redacted: string)
    ensures redacted == Redacted(values, text, truncated)
  {
    var secrets := Secrets(values);
    var cut := text;
    if truncated { cut := CutPartials(secrets, text); }
    redacted := ReplaceAll(secrets, cut);
  }

  // ---------- what redaction leaves ----------

  predicate AllOrdinary(secrets: seq<string>) {
    forall j | 0 <= j < |secrets| :: Ordinary(secrets[j])
  }

  /** After the cuts the text does not end in the beginning of an ordinary secret, whatever the others are. */
  lemma {:induction false} CutsLeaveNoPartial(secrets: seq<string>, text: string, s: string)
    requires Ordinary(s) && s in secrets
    ensures NoPartial(s, PartialsCut(secrets, text))
  {
    var front, last := secrets[..|secrets| - 1], secrets[|secrets| - 1];
    assert secrets == front + [last];
    var before := PartialsCut(front, text);
    if s == last { CutLengthIsLongestPartial(s, before); } else { CutsLeaveNoPartial(front, text, s); }
    OneCutLeavesNoPartial(before, CutLength(last, before), s);
  }

  lemma OneCutLeavesNoPartial(text: string, n: nat, s: string)
    requires Ordinary(s) && (n == 0 ==> NoPartial(s, text))
    ensures NoPartial(s, CutBy(text, n))
  {
    if n > 0 {
      assert IsSuffix(MARKER, CutBy(text, n));
      CutLeavesNoPartial(s, CutBy(text, n));
    }
  }

  /** Whatever the other secrets are, their replacement brings no ordinary one back. */
  lemma {:induction false} NothingIsLeft(secrets: seq<string>, text: string, s: string)
    requires Ordinary(s) && forall j | 0 <= j < |secrets| :: secrets[j] != []
    ensures s in secrets ==> !Contains(SecretsReplaced(secrets, text), s)
    ensures NoPartial(s, text) ==> NoPartial(s, SecretsReplaced(secrets, text))
  {
    if secrets != [] {
      var front, last := secrets[..|secrets| - 1], secrets[|secrets| - 1];
      assert secrets == front + [last];
      NothingIsLeft(front, text, s);
      var before := SecretsReplaced(front, text);
      if s == last { OneIsGone(before, s); } else if s in front { StaysGone(before, last, s); }
      if NoPartial(s, text) { ReplaceKeepsNoPartial(before, last, s); }
    }
  }

  lemma StaysGone(text: string, secret: string, s: string)
    requires secret != [] && Ordinary(s) && !Contains(text, s)
    ensures !Contains(Replace(text, secret, MARKER), s)
  {
    var r := Replace(text, secret, MARKER);
    if Contains(r, s) {
      var i: nat :| i <= |r| && OccursAt(s, r, i);
      var earlier := WordsAreOld(text, secret, MARKER, s, i);
    }
  }

  lemma OneIsGone(text: string, secret: string)
    requires Ordinary(secret)
    ensures !Contains(Replace(text, secret, MARKER), secret)
  {
    var r := Replace(text, secret, MARKER);
    if Contains(r, secret) {
      var i: nat :| i <= |r| && OccursAt(secret, r, i);
      SurvivalIsSpelled(text, secret, MARKER, i);
    }
  }

  // ---------- what remains of a secret that the bound cut off ----------

  /** The length of the cut that is made: that of the first secret whose beginning ends the text. */
  function FirstCut(secrets: seq<string>, text: string): nat {
    if secrets == [] then 0
    else
      var earlier := FirstCut(secrets[..|secrets| - 1], text);
      if earlier != 0 then earlier else CutLength(secrets[|secrets| - 1], text)
  }

  lemma NoSecondCut(secret: string, text: string, n: nat)
    requires Ordinary(secret)
    ensures CutLength(secret, text) <= |text|
    ensures n > 0 ==> CutLength(secret, CutBy(text, n)) == 0
  {
    CutLengthIsLongestPartial(secret, text);
    if n > 0 {
      var cut := CutBy(text, n);
      assert IsSuffix(MARKER, cut);
      CutLengthIsLongestPartial(secret, cut);
      CutLeavesNoPartial(secret, cut);
    }
  }

  /** Only one cut is made: the marker it leaves keeps every later secret from another. */
  lemma {:induction false} OneCutIsMade(secrets: seq<string>, text: string)
    requires AllOrdinary(secrets)
    ensures FirstCut(secrets, text) <= |text|
    ensures PartialsCut(secrets, text) == CutBy(text, FirstCut(secrets, text))
  {
    if secrets != [] {
      var front, last := secrets[..|secrets| - 1], secrets[|secrets| - 1];
      OneCutIsMade(front, text);
      NoSecondCut(last, text, FirstCut(front, text));
    }
  }

  lemma {:induction false} SomeCutIsMade(secrets: seq<string>, text: string, i: nat)
    requires i < |secrets| && CutLength(secrets[i], text) > 0
    ensures FirstCut(secrets, text) > 0
    decreases |secrets|
  {
    if i < |secrets| - 1 { SomeCutIsMade(secrets[..|secrets| - 1], text, i); }
  }

  /** The last k characters of the captured text are gone, and all before the cut is left. */
  predicate RemovedWhole(secrets: seq<string>, text: string, k: nat) {
    exists a: nat | a + k <= |text| :: PartialsCut(secrets, text) == text[..a] + MARKER
  }

  /** The captured beginning of a secret is removed whole exactly when the first secret, longest
      first, of which a beginning ends the text, has one there that is at least as long. */
  lemma BeginningIsRemovedIff(secrets: seq<string>, text: string, i: nat, k: nat)
    requires AllOrdinary(secrets) && i < |secrets| && k > 0 && EndsPartial(secrets[i], text, k)
    ensures RemovedWhole(secrets, text, k) <==> k <= FirstCut(secrets, text)
  {
    OneCutIsMade(secrets, text);
    CutLengthIsLongestPartial(secrets[i], text);
    SomeCutIsMade(secrets, text, i);
    var n := FirstCut(secrets, text);
    assert PartialsCut(secrets, text) == text[..|text| - n] + MARKER;
    if k <= n { assert (|text| - n) + k <= |text|; }
    forall a: nat | a + k <= |text| && PartialsCut(secrets, text) == text[..a] + MARKER ensures a == |text| - n {
      assert |text[..a] + MARKER| == a + |MARKER|;
    }
  }

  lemma {:induction false} CutOfOne(secrets: seq<string>, text: string) returns (j: nat)
    requires FirstCut(secrets, text) > 0
    ensures j < |secrets| && FirstCut(secrets, text) == CutLength(secrets[j], text)
    decreases |secrets|
  {
    var n := |secrets| - 1;
    if FirstCut(secrets[..n], text) > 0 { j := CutOfOne(secrets[..n], text); } else { j := n; }
  }

  /** So it is whenever the text ends in the beginning of no other secret. */
  lemma LoneBeginningIsRemoved(secrets: seq<string>, text: string, i: nat, k: nat)
    requires AllOrdinary(secrets) && i < |secrets| && k > 0 && EndsPartial(secrets[i], text, k)
    requires forall j | 0 <= j < |secrets| && j != i :: NoPartial(secrets[j], text)
    ensures RemovedWhole(secrets, text, k)
  {
    forall j | 0 <= j < |secrets| && j != i ensures CutLength(secrets[j], text) == 0 {
      CutLengthIsLongestPartial(secrets[j], text);
    }
    CutLengthIsLongestPartial(secrets[i], text);
    SomeCutIsMade(secrets, text, i);
    var j := CutOfOne(secrets, text);
    BeginningIsRemovedIff(secrets, text, i, k);
  }

  /** In place of the captured text the cut leaves two characters of "zzabY": "abXXXXX" is looked at first. */
  lemma CutByTheLonger()
    ensures PartialsCut(["abXXXXX", "zzabY"], "zzab") == "zz" + MARKER
  {
    var secrets, text := ["abXXXXX", "zzabY"], "zzab";
    SharingNothingIsEnough(secrets[0]);
    SharingNothingIsEnough(secrets[1]);
    CutLengthIsLongestPartial(secrets[0], text);
    var n := CutLength(secrets[0], text);
    assert EndsPartial(secrets[0], text, 2);
    assert secrets[0][..3][0] != text[1..][0] && secrets[0][..4][0] != text[0..][0];
    assert n == 2;
    assert secrets[..1][..0] == [] && secrets[..1] == [secrets[0]];
    assert FirstCut(secrets[..1], text) == 2;
    assert FirstCut(secrets, text) == 2;
    OneCutIsMade(secrets, text);
    assert text[..2] == "zz";
  }

  lemma Differs(w: string, t: string, i: nat, k: nat)
    requires k < |w| && i + |w| <= |t| && t[i + k] != w[k]
    ensures !OccursAt(w, t, i)
  {
    assert t[i..i + |w|][k] == t[i + k];
  }

  lemma SecretsOfTwo(s: string, w: string)
    requires s != [] && w != []
    ensures Secrets([s, w]) == if |w| <= |s| then [s, w] else [w, s]
  {
    var one, two := [w], [s, w];
    assert two[1..] == one && one[1..] == [];
    assert Nonempty(one) == one;
    assert Nonempty(two) == two;
    assert SortBy(one, Longest) == one;
    assert SortBy(two, Longest) == Insert(s, one, Longest);
  }

  lemma TwoReplaced(s: string, w: string, text: string)
    requires s != [] && w != []
    ensures SecretsReplaced([s, w], text) == Replace(Replace(text, s, MARKER), w, MARKER)
  {
    var two := [s, w];
    assert two[..1][..0] == [] && two[..1] == [s];
    assert SecretsReplaced(two[..1], text) == Replace(text, s, MARKER);
  }

  lemma NothingToReplace(text: string, secret: string, m: string, i: nat)
    requires i < |secret| && secret[i] !in text
    ensures Replace(text, secret, m) == text
  {
    forall j: nat | j <= |text| ensures !OccursAt(secret, text, j) {
      if j + |secret| <= |text| {
        assert text[j + i] in text;
        Differs(secret, text, j, i);
      }
    }
  }

  lemma CutLeavesNeither()
    ensures Replace("zz" + MARKER, "abXXXXX", MARKER) == "zz" + MARKER
    ensures Replace("zz" + MARKER, "zzabY", MARKER) == "zz" + MARKER
  {
    var left := "zz" + MARKER;
    assert 'a' !in left;
    NothingToReplace(left, "abXXXXX", MARKER, 0);
    NothingToReplace(left, "zzabY", MARKER, 2);
  }

  lemma CapturedOfLonger()
    ensures EndsPartial("zzabY", "zzab", 4)
  {
    assert IsSuffix("zzabY"[..4], "zzab");
  }

  lemma OnlyCut(s: string, w: string, text: string, left: string)
    requires s != [] && |s| < |w| && PartialsCut([w, s], text) == left
    requires Replace(left, w, MARKER) == left && Replace(left, s, MARKER) == left
    ensures Redacted([s, w], text, true) == left
  {
    SecretsOfTwo(s, w);
    TwoReplaced(w, s, left);
  }

  lemma LongerLeaves()
    ensures Redacted(["zzabY", "abXXXXX"], "zzab", true) == "zz" + MARKER
  {
    CutByTheLonger();
    CutLeavesNeither();
    OnlyCut("zzabY", "abXXXXX", "zzab", "zz" + MARKER);
  }

  lemma MarkerAfterTwo()
    ensures "zz" + MARKER == "zz[REDACTED]"
  {
  }

  /** A longer secret of which fewer characters were captured leaves some of another: of "zzabY" the
      captured "zzab" stays in part, as "abXXXXX" is looked at first. */
  lemma LongerSecretLeavesBeginning()
    ensures EndsPartial("zzabY", "zzab", 4)
    ensures Redacted(["zzabY", "abXXXXX"], "zzab", true) == "zz[REDACTED]"
  {
    CapturedOfLonger();
    LongerLeaves();
    MarkerAfterTwo();
  }

  /** An ordinary secret is not left in the redacted text, and where the capture was cut off, the text
      does not end in the beginning of it, whatever the other values are. */
  lemma RedactedHasNoSecret(values: seq<string>, text: string, truncated: bool, s: string)
    requires s in values && Ordinary(s)
    ensures !Contains(Redacted(values, text, truncated), s)
    ensures truncated ==> NoPartial(s, Redacted(values, text, truncated))
  {
    var secrets := Secrets(values);
    if truncated { CutsLeaveNoPartial(secrets, text, s); }
    NothingIsLeft(secrets, if truncated then PartialsCut(secrets, text) else text, s);
  }

  lemma PartialIsOld(text: string, secret: string, s: string, k: nat)
    requires secret != [] && Ordinary(s) && k > 0 && EndsPartial(s, Replace(text, secret, MARKER), k)
    ensures EndsPartial(s, text, k)
  {
    EndingsAreOld(text, secret, MARKER, s, k);
  }

  lemma ReplaceKeepsNoPartial(text: string, secret: string, s: string)
    requires secret != [] && Ordinary(s) && NoPartial(s, text)
    ensures NoPartial(s, Replace(text, secret, MARKER))
  {
    var r := Replace(text, secret, MARKER);
    forall k: nat | EndsPartial(s, r, k) ensures k == 0 {
      if k > 0 { PartialIsOld(text, secret, s, k); }
    }
  }

  lemma OccursInSlice(text: string, limit: nat, s: string, i: nat)
    requires limit <= |text| && OccursAt(s, text[..limit], i)
    ensures OccursAt(s, text, i)
  {
  }

  /** Bounding the length of the log afterwards uncovers no secret either. */
  lemma SliceContainsNoSecret(text: string, limit: nat, s: string)
    requires !Contains(text, s)
    ensures !Contains(if |text| <= limit then text else text[..limit], s)
  {
    if |text| > limit {
      forall i: nat | i <= limit ensures !OccursAt(s, text[..limit], i) {
        if OccursAt(s, text[..limit], i) { OccursInSlice(text, limit, s, i); }
      }
    }
  }

  // ---------- the whole log ----------

  function Bounded(text: string): string {
    if |text| <= LIMIT then text else text[..LIMIT]
  }

  /** From the output of the job to the log that is reported; decoding is not looked into. */
  method Report(chunks: seq<seq<bv8>>, decode: seq<bv8> -> string, values: seq<string>) returns (logs: string, truncated: bool)
    ensures var all := Flatten(chunks);
            var captured := decode(if |all| <= 262_144 then all else all[..262_144]);
            var redacted := Redacted(values, captured, |all| > 262_144);
            && logs == (if |redacted| <= 262_144 then redacted else redacted[..262_144])
            && (truncated <==> |all| > 262_144 || |redacted| > 262_144)
    ensures |logs| <= 262_144
    ensures forall s | s in values && Ordinary(s) :: !Contains(logs, s)
  {
    var output, cut := Capture(chunks, LIMIT);
    var text := Redact(values, decode(output), cut);
    logs := Bounded(text);
    truncated := cut || |text| > LIMIT;
    forall s | s in values && Ordinary(s) ensures !Contains(logs, s) {
      RedactedHasNoSecret(values, decode(output), cut, s);
      SliceContainsNoSecret(text, LIMIT, s);
    }
  }

  /** Secrets that share no character with the marker are ordinary. */
  lemma SharingNothingIsEnough(secret: string)
    requires secret != [] && NUL !in secret && forall c | c in secret :: c !in MARKER
    ensures Ordinary(secret)
  {
    forall d | -|secret| < d < |MARKER| ensures !Agree(secret, MARKER, d) {
      var x: nat := if d < 0 then 0 else d;
      assert secret[x - d] in secret && MARKER[x] in MARKER;
    }
  }

  // ---------- a single secret: exactly when it can survive ----------

  /** The marker that replaces one occurrence spells another with the text around it: the secret
      begins inside the marker, or before it with a beginning that does not itself hide one. */
  predicate CanSurvive(secret: string, m: string) {
    exists d | -|secret| < d < |m| :: Spells(secret, m, d)
  }

  predicate Spells(secret: string, m: string, d: int)
    requires -|secret| < d < |m|
  {
    Agree(secret, m, d) && (d < 0 ==> Find(secret[..-d] + secret, secret, 0) == -d)
  }

  lemma {:induction false} SurvivalIsSpelled(text: string, secret: string, m: string, i: nat)
    requires secret != [] && m != [] && OccursAt(secret, Replace(text, secret, m), i)
    ensures CanSurvive(secret, m)
    decreases |text|
  {
    var p := Find(text, secret, 0);
    assert p >= 0;
    var a, rest := text[..p], text[p + |secret|..];
    var r' := Replace(rest, secret, m);
    var r := (a + m) + r';
    assert r == a + (m + r');
    if i + |secret| <= |a| {
      OccursInFront(a, m + r', secret, i);
      BeforeFirst(text, secret);
    } else if i >= |a| + |m| {
      OccursBehind(a + m, r', secret, i);
      SurvivalIsSpelled(rest, secret, m, i - |a + m|);
    } else {
      SpelledHere(text, secret, m, p, r', i);
    }
  }

  lemma OccursInFront(a: string, b: string, w: string, i: nat)
    requires i + |w| <= |a| && OccursAt(w, a + b, i)
    ensures Contains(a, w)
  {
    assert (a + b)[i..i + |w|] == a[i..i + |w|];
    assert OccursAt(w, a, i);
  }

  lemma OccursBehind(a: string, b: string, w: string, i: nat)
    requires i >= |a| && OccursAt(w, a + b, i)
    ensures OccursAt(w, b, i - |a|)
  {
    assert (a + b)[i..i + |w|] == b[i - |a|..i - |a| + |w|];
  }

  lemma SpelledHere(text: string, secret: string, m: string, p: nat, rest: string, i: nat)
    requires secret != [] && m != [] && p <= |text| && Find(text, secret, 0) == p
    requires OccursAt(secret, (text[..p] + m) + rest, i) && i < p + |m| && p < i + |secret|
    ensures CanSurvive(secret, m)
  {
    var r, d := (text[..p] + m) + rest, i - p;
    AgreesHere(text[..p], m, rest, secret, i);
    if d < 0 {
      assert r[..p] == text[..p];
      FindIsFirst(text, secret, p);
      FirstOccurrence(text, secret, p, r, i);
      FindsFirst(secret[..-d] + secret, secret, -d);
    }
    assert Spells(secret, m, d);
  }

  lemma FindIsFirst(text: string, secret: string, p: nat)
    requires secret != [] && p <= |text| && Find(text, secret, 0) == p
    ensures FirstOccursAt(secret, text, p)
  {
  }

  lemma AgreesHere(before: string, m: string, rest: string, secret: string, i: nat)
    requires OccursAt(secret, (before + m) + rest, i) && i < |before| + |m| && |before| < i + |secret|
    ensures Agree(secret, m, i - |before|)
  {
    var r, d := (before + m) + rest, i - |before|;
    forall x: nat | x < |m| && 0 <= x - d < |secret| ensures secret[x - d] == m[x] {
      assert r[i..i + |secret|][x - d] == r[|before| + x] == m[x];
    }
  }

  predicate FirstOccursAt(w: string, t: string, p: nat) {
    OccursAt(w, t, p) && forall j: nat | j < p :: !OccursAt(w, t, j)
  }

  /** The characters before the first occurrence hide none of their own. */
  lemma FirstOccurrence(text: string, secret: string, p: nat, r: string, i: nat)
    requires secret != [] && p <= |text| && FirstOccursAt(secret, text, p) && i < p
    requires OccursAt(secret, r, i) && p <= |r| && r[..p] == text[..p] && p < i + |secret|
    ensures FirstOccursAt(secret, secret[..p - i] + secret, p - i)
  {
    SameBefore(text, secret, p, r, i);
    FirstInMiddle(text, secret, secret[..p - i], i);
  }

  lemma FirstInMiddle(text: string, secret: string, u: string, i: nat)
    requires i + |u| + |secret| <= |text| && FirstOccursAt(secret, text, i + |u|)
    requires text[i..i + |u| + |secret|] == u + secret
    ensures FirstOccursAt(secret, u + secret, |u|)
  {
    var t := u + secret;
    assert t[|u|..|u| + |secret|] == secret;
    forall j: nat | j < |u| && OccursAt(secret, t, j) ensures OccursAt(secret, text, i + j) {
      OccursInMiddle(text, secret, t, i, j);
    }
  }

  lemma FindsFirst(t: string, w: string, p: nat)
    requires p <= |t| && FirstOccursAt(w, t, p)
    ensures Find(t, w, 0) == p
  {
    var f := Find(t, w, 0);
    assert OccursAt(w, t, p);
  }

  lemma SameBefore(text: string, secret: string, p: nat, r: string, i: nat)
    requires p + |secret| <= |text| && OccursAt(secret, text, p) && i < p
    requires OccursAt(secret, r, i) && p <= |r| && r[..p] == text[..p] && p < i + |secret|
    ensures text[i..p + |secret|] == secret[..p - i] + secret
  {
    assert secret[..p - i] == r[i..i + |secret|][..p - i] == r[..p][i..] == text[..p][i..];
    assert text[i..p + |secret|] == text[i..p] + text[p..p + |secret|];
  }

  lemma OccursInMiddle(text: string, secret: string, t: string, i: nat, j: nat)
    requires i + |t| <= |text| && text[i..i + |t|] == t && OccursAt(secret, t, j)
    ensures OccursAt(secret, text, i + j)
  {
    forall x | 0 <= x < |secret| ensures text[i + j + x] == secret[x] {
      assert text[i + j + x] == text[i..i + |t|][j + x] == t[j..j + |secret|][x];
    }
    assert text[i + j..i + j + |secret|] == secret;
  }

  lemma SpelledSurvives(secret: string, m: string, d: int) returns (text: string)
    requires secret != [] && -|secret| < d < |m| && Spells(secret, m, d)
    ensures Contains(Replace(text, secret, m), secret)
  {
    var u := if d < 0 then secret[..-d] else "";
    var v := if d + |secret| <= |m| then "" else secret[|m| - d..];
    text := u + secret + v;
    if d >= 0 { assert u + secret == secret && OccursAt(secret, secret, 0); }
    FoundAfter(u, secret, v);
    assert text[..|u|] == u && text[|u| + |secret|..] == v;
    NothingInShort(v, secret, m);
    assert Replace(text, secret, m) == u + m + v;
    SpelledAround(secret, m, d, u, v);
  }

  lemma NothingInShort(v: string, secret: string, m: string)
    requires |v| < |secret|
    ensures Replace(v, secret, m) == v
  {
    assert Find(v, secret, 0) == -1;
  }

  lemma SpelledAround(secret: string, m: string, d: int, u: string, v: string)
    requires -|secret| < d < |m| && Agree(secret, m, d)
    requires u == (if d < 0 then secret[..-d] else "") && v == (if d + |secret| <= |m| then "" else secret[|m| - d..])
    ensures Contains(u + m + v, secret)
  {
    var r := u + m + v;
    var i: nat := if d < 0 then 0 else d;
    assert i + |secret| <= |r|;
    forall x: nat | x < |secret| ensures r[i + x] == secret[x] {
      SpelledAt(secret, m, d, u, v, i, x);
    }
    assert r[i..i + |secret|] == secret;
    assert OccursAt(secret, r, i);
  }

  lemma SpelledAt(secret: string, m: string, d: int, u: string, v: string, i: nat, x: nat)
    requires -|secret| < d < |m| && Agree(secret, m, d) && x < |secret|
    requires u == (if d < 0 then secret[..-d] else "") && v == (if d + |secret| <= |m| then "" else secret[|m| - d..])
    requires i == (if d < 0 then 0 else d) && i + |secret| <= |u + m + v|
    ensures (u + m + v)[i + x] == secret[x]
  {
    if |u| <= i + x < |u| + |m| { assert m[i + x - |u|] == secret[i + x - |u| - d]; }
  }

  lemma FoundAfter(u: string, secret: string, v: string)
    requires secret != [] && Find(u + secret, secret, 0) == |u|
    ensures Find(u + secret + v, secret, 0) == |u|
  {
    var t := u + secret + v;
    assert t[|u|..|u| + |secret|] == secret;
    assert OccursAt(secret, t, |u|);
    forall j: nat | j < |u| ensures !OccursAt(secret, t, j) {
      assert t[j..j + |secret|] == (u + secret)[j..j + |secret|];
      assert !OccursAt(secret, u + secret, j);
    }
  }

  predicate SurvivesIn(text: string, secret: string, m: string)
    requires secret != []
  {
    Contains(Replace(text, secret, m), secret)
  }

  /** Whatever the text, replacing a secret leaves no occurrence of it: exactly when it cannot
      be spelled around the marker.  Other secrets are not looked at here. */
  lemma SecretSurvivesIff(secret: string, m: string)
    requires secret != [] && m != []
    ensures (exists text: string :: SurvivesIn(text, secret, m)) <==> CanSurvive(secret, m)
  {
    if text: string :| SurvivesIn(text, secret, m) {
      var r := Replace(text, secret, m);
      var i: nat :| i <= |r| && OccursAt(secret, r, i);
      SurvivalIsSpelled(text, secret, m, i);
    }
    if CanSurvive(secret, m) {
      var d :| -|secret| < d < |m| && Spells(secret, m, d);
      var text := SpelledSurvives(secret, m, d);
      assert SurvivesIn(text, secret, m);
    }
  }

  lemma OneSecret(secret: string, text: string)
    requires secret != []
    ensures Redacted([secret], text, false) == Replace(text, secret, MARKER)
  {
    var one := [secret];
    assert Nonempty(one[1..]) == [];
    assert Nonempty(one) == one;
    assert SortBy(one[1..], Longest) == [];
    assert Secrets(one) == one;
    assert one[..0] == [];
    assert SecretsReplaced(one[..0], text) == text;
    assert SecretsReplaced(one, text) == Replace(text, secret, MARKER);
  }

  lemma EInMarker()
    ensures OccursAt("E", MARKER, 2)
  {
    assert MARKER[2] == 'E' && MARKER[2..3] == [MARKER[2]];
  }

  /** With the marker of the script: a secret that is a letter of the marker is still there after redaction. */
  lemma LetterOfMarkerSurvives()
    ensures Redacted(["E"], "E", false) == "[REDACTED]" && Contains(Redacted(["E"], "E", false), "E")
  {
    var t, w := "E", "E";
    OneSecret(w, t);
    assert OccursAt(w, t, 0) && Find(t, w, 0) == 0;
    assert t[..0] == "" && t[|w|..] == "";
    NothingInShort("", w, MARKER);
    assert Replace(t, w, MARKER) == MARKER;
    EInMarker();
  }

  // ---------- among other secrets: exactly when one can survive ----------

  lemma TwoSecrets(s: string, w: string, text: string)
    requires s != [] && w != [] && |w| <= |s|
    ensures Redacted([s, w], text, false) == Replace(Replace(text, s, MARKER), w, MARKER)
  {
    SecretsOfTwo(s, w);
    TwoReplaced(s, w, text);
  }

  predicate Filled(w: string, x: char) {
    forall i | 0 <= i < |w| :: w[i] == x
  }

  /** A word of one character that the secret neither begins nor ends with, and as long, keeps its parts apart. */
  lemma NotAcrossFiller(s: string, x: char, u: string, w: string, v: string)
    requires s != [] && |w| == |s| && Filled(w, x) && x != s[0] && x != s[|s| - 1] && |u| < |s| && |v| < |s|
    ensures Find((u + w) + v, s, 0) == -1
  {
    var t := (u + w) + v;
    forall i: nat | i <= |t| ensures !OccursAt(s, t, i) {
      if i + |s| <= |t| {
        var k := if i < |u| then |s| - 1 else 0;
        assert t[i + k] == w[i + k - |u|];
        Differs(s, t, i, k);
      }
    }
  }

  lemma FillerReplaced(x: char, u: string, w: string, v: string, m: string)
    requires w != [] && Filled(w, x) && |u| < |w| && |v| < |w| && (u != [] ==> u[|u| - 1] != x)
    ensures Replace((u + w) + v, w, m) == u + m + v
  {
    var t := (u + w) + v;
    assert t[|u|..|u| + |w|] == w;
    assert OccursAt(w, t, |u|);
    forall j: nat | j < |u| ensures !OccursAt(w, t, j) {
      assert t[j + (|u| - 1 - j)] == u[|u| - 1];
      Differs(w, t, j, |u| - 1 - j);
    }
    FindsFirst(t, w, |u|);
    assert t[..|u|] == u && t[|u| + |w|..] == v;
    NothingInShort(v, w, m);
  }

  lemma MarkerJoins(s: string, x: char, u: string, w: string, v: string)
    requires s != [] && |w| == |s| && Filled(w, x) && x != s[0] && x != s[|s| - 1]
    requires |u| < |s| && |v| < |s| && (u != [] ==> u[|u| - 1] != x)
    ensures Redacted([s, w], (u + w) + v, false) == u + MARKER + v
  {
    TwoSecrets(s, w, (u + w) + v);
    NotAcrossFiller(s, x, u, w, v);
    FillerReplaced(x, u, w, v, MARKER);
  }

  function AnyBut(a: char, b: char, c: char): (x: char)
    ensures x != a && x != b && x != c && x != NUL
  {
    if 'p' !in {a, b, c} then 'p' else if 'q' !in {a, b, c} then 'q' else if 'r' !in {a, b, c} then 'r' else 's'
  }

  /** A secret that can overlap the marker survives in some text, where another secret stands between
      the parts of it that the marker is to join. */
  lemma OverlapSurvives(s: string) returns (values: seq<string>, text: string)
    requires s != [] && Overlaps(s, MARKER)
    ensures s in values && Contains(Redacted(values, text, false), s)
    ensures NUL !in s ==> forall other | other in values :: NUL !in other
  {
    var d :| -|s| < d < |MARKER| && Agree(s, MARKER, d);
    var u := if d < 0 then s[..-d] else "";
    var v := if d + |s| <= |MARKER| then "" else s[|MARKER| - d..];
    var x := AnyBut(s[0], s[|s| - 1], if u == "" then s[0] else u[|u| - 1]);
    var w := seq(|s|, _ => x);
    values, text := [s, w], (u + w) + v;
    MarkerJoins(s, x, u, w, v);
    SpelledAround(s, MARKER, d, u, v);
  }

  /** Exactly the secrets that cannot overlap the marker are gone whatever the other secrets and the text. */
  lemma SecretIsGoneIff(s: string)
    requires s != [] && NUL !in s
    ensures (forall values: seq<string>, text: string, truncated: bool | s in values ::
              !Contains(Redacted(values, text, truncated), s))
            <==> !Overlaps(s, "[REDACTED]")
  {
    if Overlaps(s, MARKER) {
      var values, text := OverlapSurvives(s);
    } else {
      forall values: seq<string>, text: string, truncated: bool | s in values
        ensures !Contains(Redacted(values, text, truncated), s)
      {
        RedactedHasNoSecret(values, text, truncated, s);
      }
    }
  }

  // ---------- the longest first ----------

  lemma SameLengthDiffers(t: string, s: string)
    requires s != [] && |s| >= |t| && s != t
    ensures Replace(t, s, MARKER) == t
  {
    forall i: nat | i <= |t| ensures !OccursAt(s, t, i) {
      if i + |s| <= |t| { assert i == 0 && t[i..i + |s|] == t; }
    }
  }

  lemma OrdinaryNotInMarker(s: string)
    requires Ordinary(s)
    ensures Replace(MARKER, s, MARKER) == MARKER
  {
    forall i: nat | i <= |MARKER| ensures !OccursAt(s, MARKER, i) {
      if OccursAt(s, MARKER, i) { MarkerInWord(MARKER, s, i, MARKER, 0); }
    }
  }

  /** Those before the k-th, which is t if there is one, are no shorter, and not t. */
  predicate LongBefore(secrets: seq<string>, t: string, k: nat) {
    && (k < |secrets| ==> secrets[k] == t)
    && forall j | 0 <= j < |secrets| && j < k :: secrets[j] != t && |secrets[j]| >= |t|
  }

  /** Longest first: secrets before the k-th, which is t, do not occur in t, those after it not in the marker. */
  lemma {:induction false} ReplacedWhole(secrets: seq<string>, t: string, k: nat)
    requires t != [] && AllOrdinary(secrets) && LongBefore(secrets, t, k)
    ensures SecretsReplaced(secrets, t) == if k < |secrets| then MARKER else t
    decreases |secrets|
  {
    if secrets != [] {
      var n := |secrets| - 1;
      ReplacedWhole(secrets[..n], t, k);
      WholeStep(secrets[n], t, k, n);
    }
  }

  lemma WholeStep(s: string, t: string, k: nat, n: nat)
    requires t != [] && Ordinary(s) && (n == k ==> s == t) && (n < k ==> s != t && |s| >= |t|)
    ensures Replace(if k < n then MARKER else t, s, MARKER) == if k < n + 1 then MARKER else t
  {
    if k < n { OrdinaryNotInMarker(s); }
    else if k == n { WholeReplaced(t); }
    else { SameLengthDiffers(t, s); }
  }

  lemma {:induction false} FirstIndex(secrets: seq<string>, t: string) returns (k: nat)
    requires t in secrets
    ensures k < |secrets| && secrets[k] == t && forall j | 0 <= j < k :: secrets[j] != t
  {
    if secrets[0] == t { k := 0; } else {
      var i := FirstIndex(secrets[1..], t);
      k := i + 1;
    }
  }

  lemma WholeReplaced(t: string)
    requires t != []
    ensures Replace(t, t, MARKER) == MARKER
  {
    assert OccursAt(t, t, 0);
    assert t[..0] == [] && t[|t|..] == [];
    NothingInShort([], t, MARKER);
  }

  /** A text that is the longest of the secrets is replaced as a whole, whatever shorter ones it contains. */
  lemma LongestIsReplacedWhole(values: seq<string>, t: string)
    requires t in values && t != [] && forall s | s in values :: |s| <= |t| && (s != [] ==> Ordinary(s))
    ensures Redacted(values, t, false) == "[REDACTED]"
  {
    var secrets := Secrets(values);
    SortIsOrdered(Nonempty(values), Longest);
    forall j | 0 <= j < |secrets| ensures Ordinary(secrets[j]) { assert secrets[j] in secrets; }
    var k := FirstIndex(secrets, t);
    forall j | 0 <= j < k ensures |secrets[j]| >= |t| { assert Longest(secrets[j]) <= Longest(secrets[k]); }
    assert secrets[..|secrets|] == secrets;
    ReplacedWhole(secrets, t, k);
  }
}
