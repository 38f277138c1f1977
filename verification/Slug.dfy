/**
 Slugs of public content. The input is the text after compatibility decomposition, which is a
 library function; everything after it is modelled character by character.
 */
module Slug {
  import opened Prelude

  const MAX_LENGTH := 80
  const FALLBACK := "postingan"

  // ----- slugify -------------------------------------------------------------------------------

  predicate Combining(c: char) {
    '\U{0300}' <= c <= '\U{036F}'
  }

  predicate Word(c: char) {
    'a' <= c <= 'z' || '0' <= c <= '9'
  }

  /** Lower case where it matters: no character outside A-Z becomes a letter of a-z. */
  function Lower(c: char): char {
    if 'A' <= c <= 'Z' then c - 'A' + 'a' else c
  }

  /** Combining marks dropped, the rest in lower case. */
  function Prepared(s: string): string {
    if s == [] then [] else
      var c := s[|s| - 1];
      Prepared(s[..|s| - 1]) + (if Combining(c) then [] else [Lower(c)])
  }

  /** Every maximal run of other characters becomes one dash. */
  function Dashed(s: string): string {
    if s == [] then [] else
      var front := s[..|s| - 1];
      if Word(s[|s| - 1]) then Dashed(front) + [s[|s| - 1]]
      else if front != [] && !Word(front[|front| - 1]) then Dashed(front)
      else Dashed(front) + ['-']
  }

  function TrimStart(s: string): string {
    if s != [] && s[0] == '-' then TrimStart(s[1..]) else s
  }

  function TrimEnd(s: string): string {
    if s != [] && s[|s| - 1] == '-' then TrimEnd(s[..|s| - 1]) else s
  }

  function Clipped(s: string): string {
    if |s| > MAX_LENGTH then s[..MAX_LENGTH] else s
  }

  function Slugify(input: string): string {
    var slug := TrimEnd(Clipped(TrimEnd(TrimStart(Dashed(Prepared(input))))));
    if |slug| > 0 then slug else FALLBACK
  }

  // ----- Form ----------------------------------------------------------------------------------

  predicate SlugChars(s: string) {
    forall i :: 0 <= i < |s| ==> Word(s[i]) || s[i] == '-'
  }

  predicate NoDoubleDash(s: string) {
    forall i :: 0 <= i < |s| - 1 ==> s[i] != '-' || s[i + 1] != '-'
  }

  predicate NoOuterDash(s: string) {
    s != [] ==> s[0] != '-' && s[|s| - 1] != '-'
  }

  /** One to eighty of a-z, 0-9 and single inner dashes. */
  predicate NormalForm(s: string) {
    1 <= |s| <= MAX_LENGTH && SlugChars(s) && NoDoubleDash(s) && NoOuterDash(s)
  }

  lemma {:induction false} DashedForm(s: string)
    ensures SlugChars(Dashed(s)) && NoDoubleDash(Dashed(s))
    ensures Dashed(s) == [] <==> s == []
    ensures s != [] ==> (Dashed(s)[|Dashed(s)| - 1] == '-' <==> !Word(s[|s| - 1]))
  {
    if s != [] {
      DashedForm(s[..|s| - 1]);
    }
  }

  lemma {:induction false} TrimStartForm(s: string)
    requires SlugChars(s) && NoDoubleDash(s)
    ensures SlugChars(TrimStart(s)) && NoDoubleDash(TrimStart(s))
    ensures TrimStart(s) != [] ==> TrimStart(s)[0] != '-'
  {
  }

  lemma {:induction false} TrimEndForm(s: string)
    requires SlugChars(s) && NoDoubleDash(s)
    ensures SlugChars(TrimEnd(s)) && NoDoubleDash(TrimEnd(s)) && TrimEnd(s) <= s
    ensures TrimEnd(s) != [] ==> TrimEnd(s)[|TrimEnd(s)| - 1] != '-' && TrimEnd(s)[0] == s[0]
  {
  }

  /** Whatever the title, the slug is in normal form. */
  lemma SlugifyNormal(input: string)
    ensures NormalForm(Slugify(input))
  {
    var dashed := Dashed(Prepared(input));
    DashedForm(Prepared(input));
    TrimStartForm(dashed);
    TrimEndForm(TrimStart(dashed));
    var clipped := Clipped(TrimEnd(TrimStart(dashed)));
    TrimEndForm(clipped);
  }

  lemma {:induction false} PreparedKeeps(s: string)
    requires SlugChars(s)
    ensures Prepared(s) == s
  {
    if s != [] {
      var front, c := s[..|s| - 1], s[|s| - 1];
      assert forall i :: 0 <= i < |front| ==> front[i] == s[i];
      PreparedKeeps(front);
      SlugCharKept(c);
      assert s == front + [c];
    }
  }

  lemma SlugCharKept(c: char)
    requires Word(c) || c == '-'
    ensures !Combining(c) && Lower(c) == c
  {
  }

  lemma {:induction false} DashedKeeps(s: string)
    requires SlugChars(s) && NoDoubleDash(s)
    ensures Dashed(s) == s
  {
    if s != [] {
      var front := s[..|s| - 1];
      DashedKeeps(front);
      assert |s| > 1 ==> s[|s| - 2] != '-' || s[|s| - 1] != '-';
      assert front != [] ==> Word(front[|front| - 1]) || front[|front| - 1] == '-';
      assert Word(s[|s| - 1]) || s[|s| - 1] == '-';
      assert s == front + [s[|s| - 1]];
    }
  }

  /** The texts that are their own slug are exactly those in normal form. */
  lemma FixedPoints(s: string)
    ensures Slugify(s) == s <==> NormalForm(s)
  {
    SlugifyNormal(s);
    if NormalForm(s) {
      PreparedKeeps(s);
      DashedKeeps(s);
      assert Clipped(s) == s;
    }
  }

  /** Slugifying a slug changes nothing. */
  lemma SlugifyIdempotent(input: string)
    ensures Slugify(Slugify(input)) == Slugify(input)
  {
    SlugifyNormal(input);
    FixedPoints(Slugify(input));
  }

  // ----- Content -------------------------------------------------------------------------------

  /** The letters and digits of a text, in order. */
  function Letters(s: string): string {
    if s == [] then [] else Letters(s[..|s| - 1]) + (if Word(s[|s| - 1]) then [s[|s| - 1]] else [])
  }

  lemma {:induction false} DashedLetters(s: string)
    ensures Letters(Dashed(s)) == Letters(s)
  {
    if s != [] {
      var front, last := s[..|s| - 1], s[|s| - 1];
      DashedLetters(front);
      if Word(last) {
        assert (Dashed(front) + [last])[..|Dashed(front)|] == Dashed(front);
      } else {
        assert (Dashed(front) + ['-'])[..|Dashed(front)|] == Dashed(front);
      }
    }
  }

  lemma {:induction false} LettersAppend(a: string, b: string)
    ensures Letters(a + b) == Letters(a) + Letters(b)
  {
    if b == [] {
      assert a + b == a;
    } else {
      LettersAppend(a, b[..|b| - 1]);
      assert (a + b)[..|a + b| - 1] == a + b[..|b| - 1];
    }
  }

  lemma {:induction false} TrimStartLetters(s: string)
    ensures Letters(TrimStart(s)) == Letters(s)
  {
    if s != [] && s[0] == '-' {
      TrimStartLetters(s[1..]);
      assert s == s[..1] + s[1..];
      LettersAppend(s[..1], s[1..]);
      assert Letters(s[..1]) == [];
    }
  }

  lemma {:induction false} TrimEndLetters(s: string)
    ensures Letters(TrimEnd(s)) == Letters(s)
  {
    if s != [] && s[|s| - 1] == '-' {
      TrimEndLetters(s[..|s| - 1]);
    }
  }

  lemma ClippedLetters(s: string)
    ensures Letters(Clipped(s)) <= Letters(s)
    ensures |s| <= MAX_LENGTH ==> Clipped(s) == s
  {
    if |s| > MAX_LENGTH {
      assert s == s[..MAX_LENGTH] + s[MAX_LENGTH..];
      LettersAppend(s[..MAX_LENGTH], s[MAX_LENGTH..]);
    }
  }

  /** What the slug would be without the length limit. */
  function Unclipped(input: string): string {
    TrimEnd(TrimStart(Dashed(Prepared(input))))
  }

  lemma {:induction false} SomeLetter(s: string)
    requires SlugChars(s) && s != [] && s[0] != '-'
    ensures Letters(s) != []
  {
    if |s| == 1 {
      assert Word(s[0]);
    } else {
      SomeLetter(s[..|s| - 1]);
    }
  }

  lemma UnclippedLetters(input: string)
    ensures Letters(Unclipped(input)) == Letters(Prepared(input))
    ensures SlugChars(Unclipped(input)) && NoDoubleDash(Unclipped(input)) && NoOuterDash(Unclipped(input))
  {
    var dashed := Dashed(Prepared(input));
    DashedForm(Prepared(input));
    DashedLetters(Prepared(input));
    TrimStartForm(dashed);
    TrimStartLetters(dashed);
    TrimEndForm(TrimStart(dashed));
    TrimEndLetters(TrimStart(dashed));
  }

  lemma CutLetters(whole: string)
    requires SlugChars(whole) && NoDoubleDash(whole) && NoOuterDash(whole)
    ensures var cut := TrimEnd(Clipped(whole));
            && Letters(cut) <= Letters(whole) && (cut == [] <==> whole == [])
            && (|whole| <= MAX_LENGTH ==> cut == whole)
  {
    ClippedLetters(whole);
    TrimEndLetters(Clipped(whole));
    if whole != [] {
      SomeLetter(Clipped(whole));
    }
  }

  /**
   The slug spells the letters and digits of the title in order, as far as eighty characters reach;
   only a title without any falls back.
   */
  lemma SlugSpellsTitle(input: string)
    ensures Letters(Prepared(input)) == [] ==> Slugify(input) == FALLBACK
    ensures Letters(Prepared(input)) != [] ==>
              && Letters(Slugify(input)) <= Letters(Prepared(input))
              && (|Unclipped(input)| <= MAX_LENGTH ==> Slugify(input) == Unclipped(input))
    ensures Letters(Unclipped(input)) == Letters(Prepared(input))
  {
    var whole := Unclipped(input);
    UnclippedLetters(input);
    CutLetters(whole);
    SlugIsCut(input);
    if whole != [] {
      SomeLetter(whole);
    }
  }

  lemma SlugIsCut(input: string)
    ensures var cut := TrimEnd(Clipped(Unclipped(input)));
            Slugify(input) == if cut != [] then cut else FALLBACK
  {
  }

  // ----- ensureUniqueSlug ----------------------------------------------------------------------

  const CANDIDATES := 999

  /** The root itself, then the root with -2, -3, ... -999. */
  function Candidate(root: string, k: nat): string {
    if k == 0 then root else root + "-" + DecimalText(k + 1)
  }

  lemma CandidatesDistinct(root: string, j: nat, k: nat)
    requires Candidate(root, j) == Candidate(root, k)
    ensures j == k
  {
    if j != 0 && k != 0 {
      assert Candidate(root, j)[|root| + 1..] == DecimalText(j + 1);
      assert Candidate(root, k)[|root| + 1..] == DecimalText(k + 1);
      DecimalTextInjective(j + 1, k + 1);
    }
  }

  function FirstCandidates(root: string, n: nat): set<string> {
    if n == 0 then {} else FirstCandidates(root, n - 1) + {Candidate(root, n - 1)}
  }

  lemma {:induction false} CandidatesCounted(root: string, n: nat)
    ensures |FirstCandidates(root, n)| == n
    ensures forall k :: 0 <= k < n ==> Candidate(root, k) in FirstCandidates(root, n)
    ensures forall s :: s in FirstCandidates(root, n) ==> exists k :: 0 <= k < n && s == Candidate(root, k)
  {
    if n > 0 {
      CandidatesCounted(root, n - 1);
      forall k | 0 <= k < n - 1 ensures Candidate(root, k) != Candidate(root, n - 1) {
        if Candidate(root, k) == Candidate(root, n - 1) { CandidatesDistinct(root, k, n - 1); }
      }
    }
  }

  /** Pigeonhole: fewer taken slugs than candidates leave a candidate free. */
  lemma AllTakenMeansMany(root: string, taken: set<string>, n: nat)
    requires forall k :: 0 <= k < n ==> Candidate(root, k) in taken
    ensures |taken| >= n
  {
    CandidatesCounted(root, n);
    SubsetSize(FirstCandidates(root, n), taken);
  }

  /**
   The first candidate that is not taken; with all 999 taken, the root with a time stamp, unchecked.
   A taken slug is therefore returned only when at least 999 are taken.
   */
  method EnsureUniqueSlug(base: string, taken: set<string>, stamp: string) returns (slug: string)
    ensures || (exists k :: 0 <= k < CANDIDATES && slug == Candidate(Slugify(base), k) && slug !in taken
                            && forall j :: 0 <= j < k ==> Candidate(Slugify(base), j) in taken)
            || (slug == Slugify(base) + "-" + stamp
                && forall j :: 0 <= j < CANDIDATES ==> Candidate(Slugify(base), j) in taken)
    ensures |taken| < CANDIDATES ==> slug !in taken
  {
    var root := Slugify(base);
    assert root == Candidate(root, 0);
    if root !in taken {
      return root;
    }
    var suffix := 2;
    while suffix <= 999
      invariant 2 <= suffix <= 1000
      invariant forall j :: 0 <= j < suffix - 1 ==> Candidate(root, j) in taken
    {
      var candidate := root + "-" + DecimalText(suffix);
      assert candidate == Candidate(root, suffix - 1);
      if candidate !in taken {
        return candidate;
      }
      suffix := suffix + 1;
    }
    AllTakenMeansMany(root, taken, CANDIDATES);
    slug := root + "-" + stamp;
  }
}
